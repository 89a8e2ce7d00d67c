/** World generation: `generateTerrain` raises every column to a clamped
    height, and `generateMeshes` numbers the solid cells densely in scan order.

    The noise that picks a column's height is an input here: `columnHeight`
    maps a column `(x, z)` to the integer the source computes as
    `Math.floor(height * scaledNoise)`. */
module Terrain {
  import opened Common
  import opened VoxelWorld

  /** The height a column is filled to: `max(1, min(h, height - 1))`. */
  function ColumnHeight(height: nat, h: int): (r: int)
    ensures r >= 1
    ensures height >= 2 ==> r <= height - 1
    ensures 1 <= h <= height - 1 ==> r == h
    ensures h < 1 ==> r == 1
    ensures height >= 2 && h > height - 1 ==> r == height - 1
    ensures height <= 1 ==> r == 1
  {
    var capped := if h < height - 1 then h else height - 1;
    if 1 < capped then capped else 1
  }

  /** The cell at `(x, y, z)` once its column has been raised. */
  function Raised(g: Grid, columnHeight: (int, int) -> int, x: int, y: int, z: int): Cell
    requires InBounds(g, x, y, z)
  {
    if y < ColumnHeight(g.height, columnHeight(x, z)) then At(g, x, y, z).(id := GrassId) else At(g, x, y, z)
  }

  /** `generateTerrain`: for every column, `setBlockId(x, y, z, 1)` for each
      `y` below the column's clamped height; nothing else changes. */
  method GenerateTerrain(g: Grid, columnHeight: (int, int) -> int) returns (r: Grid)
    ensures r.width == g.width && r.height == g.height
    ensures forall x, y, z | InBounds(g, x, y, z) ::
              At(r, x, y, z).id == (if y < ColumnHeight(g.height, columnHeight(x, z)) then GrassId else At(g, x, y, z).id)
    ensures forall x, y, z | InBounds(g, x, y, z) :: At(r, x, y, z).instanceId == At(g, x, y, z).instanceId
  {
    r := g;
    var x := 0;
    while x < g.width
      invariant 0 <= x <= g.width
      invariant r.width == g.width && r.height == g.height
      invariant forall a, b, d | InBounds(g, a, b, d) ::
                  At(r, a, b, d) == if a < x then Raised(g, columnHeight, a, b, d) else At(g, a, b, d)
    {
      var z := 0;
      while z < g.width
        invariant 0 <= z <= g.width
        invariant r.width == g.width && r.height == g.height
        invariant forall a, b, d | InBounds(g, a, b, d) ::
                    At(r, a, b, d) ==
                      if a < x || (a == x && d < z) then Raised(g, columnHeight, a, b, d) else At(g, a, b, d)
      {
        var height := ColumnHeight(g.height, columnHeight(x, z));
        var y := 0;
        while y < height
          invariant 0 <= y <= height
          invariant r.width == g.width && r.height == g.height
          invariant forall a, b, d | InBounds(g, a, b, d) ::
                      At(r, a, b, d) ==
                        if a < x || (a == x && d < z) then Raised(g, columnHeight, a, b, d)
                        else if a == x && d == z && b < y then At(g, a, b, d).(id := GrassId)
                        else At(g, a, b, d)
        {
          r := SetBlockId(r, x, y, z, GrassId);
          y := y + 1;
        }
        z := z + 1;
      }
      x := x + 1;
    }
  }

  /** Terrain raised from the freshly initialized grid: a cell is grass exactly
      below its column's clamped height and empty above it, so the bottom
      layer is always solid and, when the world is at least two high, the top
      layer is always empty. */
  lemma TerrainFromEmptyGrid(width: nat, height: nat, columnHeight: (int, int) -> int, x: int, y: int, z: int)
    requires 0 <= x < width && 0 <= y < height && 0 <= z < width
    ensures var g := InitializeTerrain(width, height);
            var c := Raised(g, columnHeight, x, y, z);
            && (c.id == GrassId <==> y < ColumnHeight(height, columnHeight(x, z)))
            && (c.id == EmptyId <==> !(y < ColumnHeight(height, columnHeight(x, z))))
            && c.instanceId == None
            && (y == 0 ==> IsSolid(c))
            && (height >= 2 && y == height - 1 ==> !IsSolid(c))
  {
    var g := InitializeTerrain(width, height);
    assert InBounds(g, x, y, z);
    assert At(g, x, y, z) == Cell(EmptyId, None);
  }

  // ---------------------------------------------------------------------------
  // Instance numbering
  // ---------------------------------------------------------------------------

  /** Number of solid cells stored before position `k`, that is, before it in
      x-then-y-then-z scan order. */
  function SolidBefore(cells: seq<Cell>, k: nat): (n: nat)
    requires k <= |cells|
    ensures n <= k
  {
    if k == 0 then 0 else SolidBefore(cells, k - 1) + (if IsSolid(cells[k - 1]) then 1 else 0)
  }

  /** The cell at `(x, y, z)` once `generateMeshes` has visited it. */
  function Numbered(g: Grid, x: int, y: int, z: int): Cell
    requires InBounds(g, x, y, z)
  {
    var c := At(g, x, y, z);
    if IsSolid(c) then c.(instanceId := Some(SolidBefore(g.cells, Index(g, x, y, z)))) else c
  }

  /** `generateMeshes` without the rendering: walking the grid in scan order,
      each solid cell gets the current `mesh.count` as its instance id and
      bumps the count; empty cells are left untouched. */
  method GenerateMeshes(g: Grid) returns (r: Grid, count: nat)
    ensures r.width == g.width && r.height == g.height
    ensures count == SolidBefore(g.cells, |g.cells|)
    ensures forall x, y, z | InBounds(g, x, y, z) :: At(r, x, y, z).id == At(g, x, y, z).id
    ensures forall x, y, z | InBounds(g, x, y, z) && !IsSolid(At(g, x, y, z)) :: At(r, x, y, z) == At(g, x, y, z)
    ensures forall x, y, z | InBounds(g, x, y, z) && IsSolid(At(g, x, y, z)) ::
              At(r, x, y, z).instanceId == Some(SolidBefore(g.cells, Index(g, x, y, z)))
  {
    r := g;
    count := 0;
    var k := 0;
    while k < |g.cells|
      invariant 0 <= k <= |g.cells|
      invariant r.width == g.width && r.height == g.height
      invariant count == SolidBefore(g.cells, k)
      invariant forall a, b, d | InBounds(g, a, b, d) ::
                  At(r, a, b, d) == if Index(g, a, b, d) < k then Numbered(g, a, b, d) else At(g, a, b, d)
    {
      var (x, y, z) := Coord(g, k);
      IndexUnique(g, k);
      var blockId := At(r, x, y, z).id;
      var instanceId := count;
      if blockId != EmptyId {
        r := SetBlockInstanceId(r, x, y, z, instanceId);
        count := count + 1;
      }
      k := k + 1;
    }
  }

  /** The final count is the number of solid cells. */
  lemma {:induction false} SolidBeforeCounts(cells: seq<Cell>, k: nat)
    requires k <= |cells|
    ensures SolidBefore(cells, k) == |set j | 0 <= j < k && IsSolid(cells[j])|
  {
    if k > 0 {
      SolidBeforeCounts(cells, k - 1);
      var before := set j | 0 <= j < k - 1 && IsSolid(cells[j]);
      var upto := set j | 0 <= j < k && IsSolid(cells[j]);
      if IsSolid(cells[k - 1]) {
        assert upto == before + {k - 1};
      } else {
        assert upto == before;
      }
    }
  }

  /** Counting is monotone: a solid cell at `i` is counted by every later
      prefix. */
  lemma {:induction false} SolidBeforeGrows(cells: seq<Cell>, i: nat, j: nat)
    requires i < j <= |cells|
    ensures SolidBefore(cells, i) + (if IsSolid(cells[i]) then 1 else 0) <= SolidBefore(cells, j)
  {
    if j > i + 1 {
      SolidBeforeGrows(cells, i, j - 1);
    }
  }

  /** Instance ids strictly increase along the scan order, so no two solid
      cells share one, and each is below the final count. */
  lemma InstanceIdsIncrease(g: Grid, x1: int, y1: int, z1: int, x2: int, y2: int, z2: int)
    requires InBounds(g, x1, y1, z1) && InBounds(g, x2, y2, z2)
    requires IsSolid(At(g, x1, y1, z1)) && IsSolid(At(g, x2, y2, z2))
    requires x1 < x2 || (x1 == x2 && y1 < y2) || (x1 == x2 && y1 == y2 && z1 < z2)
    ensures SolidBefore(g.cells, Index(g, x1, y1, z1)) < SolidBefore(g.cells, Index(g, x2, y2, z2))
    ensures SolidBefore(g.cells, Index(g, x2, y2, z2)) < SolidBefore(g.cells, |g.cells|)
  {
    IndexOrder(g, x1, y1, z1, x2, y2, z2);
    SolidBeforeGrows(g.cells, Index(g, x1, y1, z1), Index(g, x2, y2, z2));
    SolidBeforeGrows(g.cells, Index(g, x2, y2, z2), |g.cells|);
  }

  /** Instance ids leave no gaps: every number below the count is the id of
      some solid cell. */
  lemma {:induction false} InstanceIdsDense(cells: seq<Cell>, k: nat, n: nat)
    requires k <= |cells| && n < SolidBefore(cells, k)
    ensures exists j :: 0 <= j < k && IsSolid(cells[j]) && SolidBefore(cells, j) == n
  {
    if n < SolidBefore(cells, k - 1) {
      InstanceIdsDense(cells, k - 1, n);
    } else {
      assert IsSolid(cells[k - 1]) && SolidBefore(cells, k - 1) == n;
    }
  }

  /** Counting depends only on which positions are solid. */
  lemma {:induction false} SolidBeforeSameIds(a: seq<Cell>, b: seq<Cell>, k: nat)
    requires k <= |a| == |b|
    requires forall j | 0 <= j < k :: IsSolid(a[j]) == IsSolid(b[j])
    ensures SolidBefore(a, k) == SolidBefore(b, k)
  {
    if k > 0 {
      SolidBeforeSameIds(a, b, k - 1);
    }
  }

  /** `generate()` on a world of the given size, by default the constructor's
      128 x 32 x 128: initialize, raise the terrain, then number the solid cells.
      Every cell below its column's clamped height is grass with an instance
      id, every other cell is empty with none, and `count` is the number of
      grass cells. */
  method Generate(columnHeight: (int, int) -> int, width: nat := DefaultWidth, height: nat := DefaultHeight)
    returns (g: Grid, count: nat)
    ensures g.width == width && g.height == height
    ensures forall x, y, z | InBounds(g, x, y, z) ::
              At(g, x, y, z).id == (if y < ColumnHeight(height, columnHeight(x, z)) then GrassId else EmptyId)
    ensures forall x, y, z | InBounds(g, x, y, z) ::
              (At(g, x, y, z).instanceId.Some? <==> y < ColumnHeight(height, columnHeight(x, z)))
    ensures count == |set j | 0 <= j < |g.cells| && IsSolid(g.cells[j])|
  {
    var empty := InitializeTerrain(width, height);
    var raised := GenerateTerrain(empty, columnHeight);
    g, count := GenerateMeshes(raised);
    forall x, y, z | InBounds(g, x, y, z)
      ensures At(g, x, y, z).id == At(raised, x, y, z).id
      ensures At(raised, x, y, z).id == (if y < ColumnHeight(height, columnHeight(x, z)) then GrassId else EmptyId)
      ensures IsSolid(At(raised, x, y, z)) <==> y < ColumnHeight(height, columnHeight(x, z))
    {
      assert At(empty, x, y, z) == Cell(EmptyId, None);
    }
    forall j | 0 <= j < |g.cells|
      ensures IsSolid(g.cells[j]) == IsSolid(raised.cells[j])
    {
      var c := Coord(g, j);
      assert At(g, c.0, c.1, c.2).id == At(raised, c.0, c.1, c.2).id;
    }
    SolidBeforeSameIds(raised.cells, g.cells, |g.cells|);
    SolidBeforeCounts(g.cells, |g.cells|);
  }
}
