/*
 * The world the agents live in: a SizeX by SizeY grid of cells, each empty
 * or holding one agent (TorusWorld over GridWorld), and the rectangular
 * regions (home, school, work) that agents are confined to. Agents are
 * named in the grid by their id; the coordinates an agent records for
 * itself live in a Position object that the moves update.
 */
module Space {
  import opened Items

  /** Model.sizeX and Model.sizeY */
  const SizeX: int := 100
  const SizeY: int := 100

  type AgentId = nat
  type Point = (int, int)

  predicate InGrid(x: int, y: int) {
    0 <= x < SizeX && 0 <= y < SizeY
  }

  /**
   * TorusWorld.xnorm / ynorm: the coordinate wrapped onto [0, size). A
   * coordinate already in range is returned as it is.
   */
  function Norm(v: int, size: int): (r: int)
    requires size > 0
    ensures 0 <= r < size
    ensures r == v % size
    ensures 0 <= v < size ==> r == v
  {
    if v > size - 1 || v < 0 then v % size else v
  }

  /** Wrapping twice is wrapping once. */
  lemma NormIdempotent(v: int, size: int)
    requires size > 0
    ensures Norm(Norm(v, size), size) == Norm(v, size)
  {
  }

  /**
   * xnorm / ynorm as written: add the size while negative, then take the
   * remainder.
   */
  method Wrap(v: int, size: int) returns (r: int)
    requires size == SizeX || size == SizeY
    ensures r == Norm(v, size)
  {
    if v > size - 1 || v < 0 {
      var x := v;
      while x < 0
        invariant x % size == v % size
        decreases if x < 0 then -x else 0
      {
        x := x + size;
      }
      return x % size;
    }
    return v;
  }

  /**
   * A rectangle of cells, bounds inclusive. The stored width and height are
   * derived from the clamped bounds.
   */
  datatype Region = Region(xMin: int, xMax: int, yMin: int, yMax: int, width: int, height: int)

  /**
   * Region(x1, x2, y1, y2): xMin and yMin are raised to 0, xMax lowered to
   * SizeX - 1, but yMax only lowered to SizeY (one past the last row).
   * Bounds already in range are kept, and the width and height follow the
   * clamped bounds.
   */
  function NewRegion(x1: int, x2: int, y1: int, y2: int): (r: Region)
    ensures r.xMin >= 0 && r.yMin >= 0 && r.xMax <= SizeX - 1 && r.yMax <= SizeY
    ensures (x1 >= 0 ==> r.xMin == x1) && (y1 >= 0 ==> r.yMin == y1)
    ensures (x2 < SizeX ==> r.xMax == x2) && (y2 < SizeY ==> r.yMax == y2)
    ensures y2 >= SizeY ==> r.yMax == SizeY
    ensures r.width == r.xMax - r.xMin + 1 && r.height == r.yMax - r.yMin + 1
  {
    var xMin := if x1 < 0 then 0 else x1;
    var yMin := if y1 < 0 then 0 else y1;
    var xMax := if x2 >= SizeX then SizeX - 1 else x2;
    var yMax := if y2 >= SizeY then SizeY else y2;
    Region(xMin, xMax, yMin, yMax, xMax - xMin + 1, yMax - yMin + 1)
  }

  /** The clamp for y admits one row beyond the grid. */
  lemma YClampLeavesGrid()
    ensures NewRegion(0, 0, 0, SizeY).yMax == SizeY && !InGrid(0, NewRegion(0, 0, 0, SizeY).yMax)
  {
  }

  /** A region whose every cell lies on the grid and which has at least one cell. */
  predicate OnGrid(r: Region) {
    && 0 <= r.xMin <= r.xMax < SizeX && 0 <= r.yMin <= r.yMax < SizeY
    && r.width == r.xMax - r.xMin + 1 && r.height == r.yMax - r.yMin + 1
  }

  /** Model: home, school and work */
  const Home: Region := NewRegion(0, SizeX - 1, 0, 15)
  const School: Region := NewRegion(0, SizeX - 1, 11, 30)
  const Work: Region := NewRegion(0, SizeX - 1, 31, SizeY - 1)

  /** inRegion (all three overloads): the inclusive rectangle test */
  predicate InRegion(r: Region, x: int, y: int) {
    !(x < r.xMin || x > r.xMax || y < r.yMin || y > r.yMax)
  }

  /** Person.inRegion(x, y): inside at least one of the regions */
  predicate InAnyRegion(regions: seq<Region>, x: int, y: int) {
    exists i :: 0 <= i < |regions| && InRegion(regions[i], x, y)
  }

  /** The model's three regions lie on the grid; home and school share rows 11 to 15. */
  lemma ModelRegionsOnGrid()
    ensures OnGrid(Home) && OnGrid(School) && OnGrid(Work)
    ensures forall x, y :: InRegion(Home, x, y) && InRegion(School, x, y) <==> 0 <= x < SizeX && 11 <= y <= 15
    ensures forall x, y :: !(InRegion(School, x, y) && InRegion(Work, x, y))
  {
  }

  /**
   * getRandomPoint: x = nextInt(width) + xMin and y = nextInt(height) + yMin,
   * the two draws given as dx and dy. For a region on the grid, every point
   * drawn lies in the region.
   */
  function RandomPoint(r: Region, dx: nat, dy: nat): (p: Point)
    requires r.width > 0 && r.height > 0
    ensures OnGrid(r) ==> InRegion(r, p.0, p.1) && InGrid(p.0, p.1)
  {
    (dx % r.width + r.xMin, dy % r.height + r.yMin)
  }

  /** Every cell of the region can be drawn. */
  lemma RandomPointReachesRegion(r: Region)
    requires OnGrid(r)
    ensures forall x, y :: InRegion(r, x, y) ==> RandomPoint(r, x - r.xMin, y - r.yMin) == (x, y)
  {
    forall x, y | InRegion(r, x, y)
      ensures RandomPoint(r, x - r.xMin, y - r.yMin) == (x, y)
    {
      SmallMod(x - r.xMin, r.width);
      SmallMod(y - r.yMin, r.height);
    }
  }

  lemma SmallMod(a: int, n: int)
    requires 0 <= a < n
    ensures a % n == a
  {
  }

  /**
   * Person.getRandomRegionPoint: null without regions; the only region's
   * point when there is one; otherwise a region drawn by nextInt(k - 1).
   */
  function RandomRegionPoint(regions: seq<Region>, pick: nat, dx: nat, dy: nat): (p: Option<Point>)
    requires forall i :: 0 <= i < |regions| ==> regions[i].width > 0 && regions[i].height > 0
    ensures p.Some? <==> |regions| > 0
    ensures p.Some? && (forall i :: 0 <= i < |regions| ==> OnGrid(regions[i])) ==> InGrid(p.value.0, p.value.1)
  {
    if |regions| == 0 then None
    else if |regions| == 1 then Some(RandomPoint(regions[0], dx, dy))
    else Some(RandomPoint(regions[pick % (|regions| - 1)], dx, dy))
  }

  /**
   * The point comes from one of the regions, but with two or more regions
   * the last one is never drawn from.
   */
  lemma RandomRegionPointSkipsLast(regions: seq<Region>, pick: nat, dx: nat, dy: nat)
    requires forall i :: 0 <= i < |regions| ==> regions[i].width > 0 && regions[i].height > 0
    ensures |regions| == 1 ==> RandomRegionPoint(regions, pick, dx, dy) == Some(RandomPoint(regions[0], dx, dy))
    ensures |regions| >= 2 ==>
              exists i :: (0 <= i < |regions| - 1 &&
                           RandomRegionPoint(regions, pick, dx, dy) == Some(RandomPoint(regions[i], dx, dy)))
  {
    if |regions| >= 2 {
      var i := pick % (|regions| - 1);
      assert RandomRegionPoint(regions, pick, dx, dy) == Some(RandomPoint(regions[i], dx, dy));
    }
  }

  /** Region.isFull: at least (height - 3) * (width - 3) occupants */
  predicate FullWith(r: Region, occupants: int) {
    occupants >= (r.height - 3) * (r.width - 3)
  }

  /** b is a, or one step either way around the torus */
  predicate WrappedNeighbour(a: int, b: int, size: int)
    requires size > 0
  {
    b == Norm(a - 1, size) || b == Norm(a, size) || b == Norm(a + 1, size)
  }

  /** A single displacement draw nextInt(3) - 1. */
  function Step(d: nat): (s: int)
    ensures -1 <= s <= 1
  {
    d % 3 - 1
  }

  /** The coordinates an agent records for itself (ObjectInGrid's x and y). */
  class Position {
    var x: int
    var y: int

    constructor(x0: int, y0: int)
      ensures x == x0 && y == y0
    {
      x, y := x0, y0;
    }
  }

  /** The grid of the TorusWorld (with its GridWorld operations). */
  class World {
    const grid: array2<Option<AgentId>>

    constructor()
      ensures Valid() && fresh(grid)
      ensures forall i, j :: 0 <= i < SizeX && 0 <= j < SizeY ==> grid[i, j] == None
    {
      grid := new Option<AgentId>[SizeX, SizeY]((i, j) => None);
    }

    predicate Valid() {
      grid.Length0 == SizeX && grid.Length1 == SizeY
    }

    /**
     * The grid after agent `id` left the cell (ox, oy) it recorded for
     * (nx, ny): the target holds it, the recorded cell is empty whoever was
     * there, and every other cell is as before.
     */
    twostate predicate Relocated(id: AgentId, ox: int, oy: int, nx: int, ny: int)
      requires Valid()
      reads grid
    {
      forall i, j :: 0 <= i < SizeX && 0 <= j < SizeY ==>
        grid[i, j] == if i == nx && j == ny then Some(id)
                      else if i == ox && j == oy then None
                      else old(grid[i, j])
    }

    /**
     * The grid after two moves of agent `id`: from (ox, oy) to (mx, my),
     * then on to (nx, ny). Both cells it left are empty, the last one holds
     * it, and every other cell is as before.
     */
    twostate predicate RelocatedTwice(id: AgentId, ox: int, oy: int, mx: int, my: int, nx: int, ny: int)
      requires Valid()
      reads grid
    {
      forall i, j :: 0 <= i < SizeX && 0 <= j < SizeY ==>
        grid[i, j] == if i == nx && j == ny then Some(id)
                      else if (i == ox && j == oy) || (i == mx && j == my) then None
                      else old(grid[i, j])
    }

    /** getPersonAt / getObjectAt */
    function At(x: int, y: int): Option<AgentId>
      requires Valid() && InGrid(x, y)
      reads grid
    {
      grid[x, y]
    }

    /**
     * The free cells of row ty among columns minX .. tx - 1, in order, with
     * coordinates wrapped onto the torus.
     */
    function OpenInRow(ty: int, minX: int, tx: int): seq<Point>
      requires Valid()
      reads grid
      decreases tx - minX
    {
      if tx <= minX then []
      else
        var p := (Norm(tx - 1, SizeX), Norm(ty, SizeY));
        OpenInRow(ty, minX, tx - 1) + (if At(p.0, p.1) == None then [p] else [])
    }

    /** The free cells of rows minY .. ty - 1 of the window, row by row. */
    function OpenInWindow(minX: int, maxX: int, minY: int, ty: int): seq<Point>
      requires Valid()
      reads grid
      decreases ty - minY
    {
      if ty <= minY then []
      else OpenInWindow(minX, maxX, minY, ty - 1) + OpenInRow(ty - 1, minX, maxX + 1)
    }

    /** The agents other than `self` in row ty among columns minX .. tx - 1, wrapped. */
    function OthersInRow(self: AgentId, ty: int, minX: int, tx: int): seq<AgentId>
      requires Valid()
      reads grid
      decreases tx - minX
    {
      if tx <= minX then []
      else
        var c := At(Norm(tx - 1, SizeX), Norm(ty, SizeY));
        OthersInRow(self, ty, minX, tx - 1) + (if c.Some? && c.value != self then [c.value] else [])
    }

    /** The agents other than `self` in rows minY .. ty - 1 of the window. */
    function OthersInWindow(self: AgentId, minX: int, maxX: int, minY: int, ty: int): seq<AgentId>
      requires Valid()
      reads grid
      decreases ty - minY
    {
      if ty <= minY then []
      else OthersInWindow(self, minX, maxX, minY, ty - 1) + OthersInRow(self, ty - 1, minX, maxX + 1)
    }

    /** The occupants of column tx among rows minY .. ty - 1. */
    function OccupantsInColumn(tx: int, minY: int, ty: int): seq<AgentId>
      requires Valid() && 0 <= tx < SizeX && 0 <= minY && ty <= SizeY
      reads grid
      decreases ty - minY
    {
      if ty <= minY then []
      else
        var c := At(tx, ty - 1);
        OccupantsInColumn(tx, minY, ty - 1) + (if c.Some? then [c.value] else [])
    }

    /** The occupants of columns r.xMin .. tx - 1 of region r, column by column. */
    function OccupantsInRegion(r: Region, tx: int): seq<AgentId>
      requires Valid() && OnGrid(r) && tx <= r.xMax + 1
      reads grid
      decreases tx - r.xMin
    {
      if tx <= r.xMin then []
      else OccupantsInRegion(r, tx - 1) + OccupantsInColumn(tx - 1, r.yMin, r.yMax + 1)
    }

    /**
     * A point is listed for a row exactly when it is a free cell of that
     * row, at the wrapped position of one of the scanned columns.
     */
    lemma {:induction false} OpenInRowMembers(ty: int, minX: int, tx: int)
      requires Valid()
      ensures forall p: Point :: p in OpenInRow(ty, minX, tx) <==>
                && InGrid(p.0, p.1) && At(p.0, p.1) == None && p.1 == Norm(ty, SizeY)
                && exists c :: minX <= c < tx && p.0 == Norm(c, SizeX)
      ensures |OpenInRow(ty, minX, tx)| <= if tx <= minX then 0 else tx - minX
      decreases tx - minX
    {
      if tx > minX {
        OpenInRowMembers(ty, minX, tx - 1);
        forall p: Point | InGrid(p.0, p.1) && At(p.0, p.1) == None && p.1 == Norm(ty, SizeY) && p.0 == Norm(tx - 1, SizeX)
          ensures p in OpenInRow(ty, minX, tx)
        {
        }
      }
    }

    /** p is a free cell at the wrapped position of a column minX .. maxX and a row minY .. ty - 1 */
    ghost predicate OpenCellOf(p: Point, minX: int, maxX: int, minY: int, ty: int)
      requires Valid()
      reads grid
    {
      && InGrid(p.0, p.1) && At(p.0, p.1) == None
      && (exists c :: minX <= c <= maxX && p.0 == Norm(c, SizeX))
      && (exists r :: minY <= r < ty && p.1 == Norm(r, SizeY))
    }

    /** getOpenNeighborLocations lists exactly the free cells of the window, wrapped. */
    lemma {:induction false} OpenInWindowMembers(minX: int, maxX: int, minY: int, ty: int)
      requires Valid()
      ensures forall p: Point :: p in OpenInWindow(minX, maxX, minY, ty) <==> OpenCellOf(p, minX, maxX, minY, ty)
      decreases ty - minY
    {
      if ty > minY {
        OpenInWindowMembers(minX, maxX, minY, ty - 1);
        OpenInRowMembers(ty - 1, minX, maxX + 1);
        var prev, row := OpenInWindow(minX, maxX, minY, ty - 1), OpenInRow(ty - 1, minX, maxX + 1);
        assert OpenInWindow(minX, maxX, minY, ty) == prev + row;
        forall p: Point
          ensures p in prev + row <==> OpenCellOf(p, minX, maxX, minY, ty)
        {
          if OpenCellOf(p, minX, maxX, minY, ty) {
            var r :| minY <= r < ty && p.1 == Norm(r, SizeY);
            if r < ty - 1 {
              assert OpenCellOf(p, minX, maxX, minY, ty - 1);
            } else {
              assert p in row;
            }
          }
          if p in row {
            assert p.1 == Norm(ty - 1, SizeY);
          }
        }
      }
    }

    /** ... and no more points than the window has cells. */
    lemma {:induction false} OpenInWindowBound(minX: int, maxX: int, minY: int, ty: int)
      requires Valid() && minX <= maxX + 1
      ensures |OpenInWindow(minX, maxX, minY, ty)| <= (maxX - minX + 1) * (if ty <= minY then 0 else ty - minY)
      decreases ty - minY
    {
      if ty > minY {
        OpenInWindowBound(minX, maxX, minY, ty - 1);
        OpenInRowMembers(ty - 1, minX, maxX + 1);
        var w := maxX - minX + 1;
        assert w * (ty - 1 - minY) + w == w * (ty - minY);
      }
    }

    /** GridWorld's clipped window yields at most nine points, all free cells on the grid. */
    lemma ClippedOpenAtMostNine(x: int, y: int)
      requires Valid()
      ensures var pts := OpenInWindow(Max(0, x - 1), Min(x + 1, SizeX - 1), Max(0, y - 1), Min(y + 1, SizeY - 1) + 1);
        && |pts| <= 9
        && forall p: Point :: p in pts ==> InGrid(p.0, p.1) && At(p.0, p.1) == None && -1 <= p.0 - x <= 1 && -1 <= p.1 - y <= 1
    {
      var minX, maxX, minY, maxY := Max(0, x - 1), Min(x + 1, SizeX - 1), Max(0, y - 1), Min(y + 1, SizeY - 1);
      OpenInWindowMembers(minX, maxX, minY, maxY + 1);
      if minX <= maxX + 1 {
        OpenInWindowBound(minX, maxX, minY, maxY + 1);
        var w, h := maxX - minX + 1, if maxY + 1 <= minY then 0 else maxY + 1 - minY;
        assert 0 <= w <= 3 && 0 <= h <= 3;
        assert w * h <= 9;
      } else {
        assert OpenInWindow(minX, maxX, minY, maxY + 1) == [] by {
          EmptyRowsEmptyWindow(minX, maxX, minY, maxY + 1);
        }
      }
    }

    lemma {:induction false} EmptyRowsEmptyWindow(minX: int, maxX: int, minY: int, ty: int)
      requires Valid() && maxX < minX
      ensures OpenInWindow(minX, maxX, minY, ty) == []
      ensures forall self :: OthersInWindow(self, minX, maxX, minY, ty) == []
      decreases ty - minY
    {
      if ty > minY {
        EmptyRowsEmptyWindow(minX, maxX, minY, ty - 1);
      }
    }

    /** getNeighbors never lists the agent itself, and lists only occupants of scanned cells. */
    lemma {:induction false} OthersInWindowMembers(self: AgentId, minX: int, maxX: int, minY: int, ty: int)
      requires Valid()
      ensures forall a :: a in OthersInWindow(self, minX, maxX, minY, ty) ==>
                a != self && exists c, r :: minX <= c <= maxX && minY <= r < ty && At(Norm(c, SizeX), Norm(r, SizeY)) == Some(a)
      decreases ty - minY
    {
      if ty > minY {
        OthersInWindowMembers(self, minX, maxX, minY, ty - 1);
        OthersInRowMembers(self, ty - 1, minX, maxX + 1);
      }
    }

    lemma {:induction false} OthersInRowMembers(self: AgentId, ty: int, minX: int, tx: int)
      requires Valid()
      ensures forall a :: a in OthersInRow(self, ty, minX, tx) ==>
                a != self && exists c :: minX <= c < tx && At(Norm(c, SizeX), Norm(ty, SizeY)) == Some(a)
      decreases tx - minX
    {
      if tx > minX {
        OthersInRowMembers(self, ty, minX, tx - 1);
      }
    }

    /**
     * TorusWorld.getNeighbors scans plain ranges between the wrapped ends, so
     * a window that crosses the left or right edge of the torus (with 2r
     * less than the grid size) finds nobody at all.
     */
    lemma NeighborsEmptyAcrossEdge(self: AgentId, x: int, y: int, radius: int)
      requires Valid() && InGrid(x, y) && 0 <= radius && 2 * radius < SizeX
      requires x - radius < 0 || x + radius >= SizeX
      ensures OthersInWindow(self, Norm(x - radius, SizeX), Norm(x + radius, SizeX),
                             Norm(y - radius, SizeY), Norm(y + radius, SizeY) + 1) == []
    {
      if x - radius < 0 {
        assert Norm(x - radius, SizeX) == x - radius + SizeX;
        assert Norm(x + radius, SizeX) == x + radius;
      } else {
        assert Norm(x + radius, SizeX) == x + radius - SizeX;
        assert Norm(x - radius, SizeX) == x - radius;
      }
      EmptyRowsEmptyWindow(Norm(x - radius, SizeX), Norm(x + radius, SizeX), Norm(y - radius, SizeY), Norm(y + radius, SizeY) + 1);
    }

    /** Region.getPeopleInRegion returns at most one occupant per cell, each found on a cell of the region. */
    lemma {:induction false} OccupantsInRegionMembers(r: Region, tx: int)
      requires Valid() && OnGrid(r) && r.xMin <= tx <= r.xMax + 1
      ensures |OccupantsInRegion(r, tx)| <= (tx - r.xMin) * r.height
      ensures forall a :: a in OccupantsInRegion(r, tx) ==>
                exists c, d :: r.xMin <= c < tx && r.yMin <= d <= r.yMax && At(c, d) == Some(a)
      decreases tx - r.xMin
    {
      if tx > r.xMin {
        OccupantsInRegionMembers(r, tx - 1);
        OccupantsInColumnMembers(tx - 1, r.yMin, r.yMax + 1);
        assert (tx - 1 - r.xMin) * r.height + r.height == (tx - r.xMin) * r.height;
      }
    }

    lemma {:induction false} OccupantsInColumnMembers(tx: int, minY: int, ty: int)
      requires Valid() && 0 <= tx < SizeX && 0 <= minY <= ty <= SizeY
      ensures |OccupantsInColumn(tx, minY, ty)| <= ty - minY
      ensures forall a :: a in OccupantsInColumn(tx, minY, ty) ==> exists d :: minY <= d < ty && At(tx, d) == Some(a)
      decreases ty - minY
    {
      if ty > minY {
        OccupantsInColumnMembers(tx, minY, ty - 1);
      }
    }

    /** Wrap for the x axis (xnorm). */
    method XNorm(x: int) returns (r: int)
      ensures r == Norm(x, SizeX)
    {
      r := Wrap(x, SizeX);
    }

    /** Wrap for the y axis (ynorm). */
    method YNorm(y: int) returns (r: int)
      ensures r == Norm(y, SizeY)
    {
      r := Wrap(y, SizeY);
    }

    /**
     * GridWorld.movePersonTo: refuses a target off the grid or occupied;
     * otherwise empties the cell the agent records as its own (whatever is
     * there), puts the agent on the target and records the target.
     */
    method MovePersonTo(id: AgentId, pos: Position, nx: int, ny: int) returns (ok: bool)
      requires Valid() && InGrid(pos.x, pos.y)
      modifies grid, pos
      ensures ok <==> InGrid(nx, ny) && old(grid[nx, ny]) == None
      ensures !ok ==> unchanged(grid) && unchanged(pos)
      ensures ok ==> pos.x == nx && pos.y == ny
      ensures ok ==> Relocated(id, old(pos.x), old(pos.y), nx, ny)
    {
      if nx < 0 || ny < 0 || nx >= SizeX || ny >= SizeY {
        return false;
      }
      if grid[nx, ny] != None {
        return false;
      }
      grid[pos.x, pos.y] := None;
      grid[nx, ny] := Some(id);
      pos.x, pos.y := nx, ny;
      return true;
    }

    /**
     * TorusWorld.moveObject: the target is wrapped onto the torus; refused
     * when occupied, otherwise the same move as movePersonTo.
     */
    method MoveObject(id: AgentId, pos: Position, dx: int, dy: int) returns (ok: bool)
      requires Valid() && InGrid(pos.x, pos.y)
      modifies grid, pos
      ensures ok <==> old(grid[Norm(pos.x + dx, SizeX), Norm(pos.y + dy, SizeY)]) == None
      ensures !ok ==> unchanged(grid) && unchanged(pos)
      ensures ok ==> pos.x == Norm(old(pos.x) + dx, SizeX) && pos.y == Norm(old(pos.y) + dy, SizeY)
      ensures ok ==> Relocated(id, old(pos.x), old(pos.y), pos.x, pos.y)
      ensures dx == 0 && dy == 0 && old(grid[pos.x, pos.y]).Some? ==> !ok
    {
      var nx := XNorm(pos.x + dx);
      var ny := YNorm(pos.y + dy);
      if grid[nx, ny] != None {
        return false;
      }
      grid[pos.x, pos.y] := None;
      grid[nx, ny] := Some(id);
      pos.x, pos.y := nx, ny;
      return true;
    }

    /**
     * TorusWorld.getOpenNeighborLocations(x, y, radius) (radius 1 for the
     * two-argument form): every free cell of the (2r+1) by (2r+1) window,
     * centre included, as wrapped coordinates, row by row.
     */
    method OpenNeighbors(x: int, y: int, radius: int) returns (pts: seq<Point>)
      requires Valid()
      ensures pts == OpenInWindow(x - radius, x + radius, y - radius, y + radius + 1)
    {
      pts := [];
      var ty := y - radius;
      while ty <= y + radius
        invariant ty <= y + radius + 1 || ty == y - radius
        invariant pts == OpenInWindow(x - radius, x + radius, y - radius, ty)
        decreases y + radius + 1 - ty
      {
        var tx := x - radius;
        ghost var before := pts;
        while tx <= x + radius
          invariant tx <= x + radius + 1 || tx == x - radius
          invariant pts == before + OpenInRow(ty, x - radius, tx)
          decreases x + radius + 1 - tx
        {
          var nx := XNorm(tx);
          var ny := YNorm(ty);
          if grid[nx, ny] == None {
            pts := pts + [(nx, ny)];
          }
          tx := tx + 1;
        }
        ty := ty + 1;
      }
    }

    /**
     * GridWorld.getOpenNeighborLocations: the free cells of the 3 by 3
     * window clipped to the grid, centre included, row by row.
     */
    method ClippedOpenNeighbors(x: int, y: int) returns (pts: seq<Point>)
      requires Valid()
      ensures pts == OpenInWindow(Max(0, x - 1), Min(x + 1, SizeX - 1), Max(0, y - 1), Min(y + 1, SizeY - 1) + 1)
    {
      var minX, maxX := Max(0, x - 1), Min(x + 1, SizeX - 1);
      var minY, maxY := Max(0, y - 1), Min(y + 1, SizeY - 1);
      pts := [];
      var ty := minY;
      while ty <= maxY
        invariant minY <= ty && (ty <= maxY + 1 || ty == minY)
        invariant pts == OpenInWindow(minX, maxX, minY, ty)
        decreases maxY + 1 - ty
      {
        var tx := minX;
        ghost var before := pts;
        while tx <= maxX
          invariant minX <= tx && (tx <= maxX + 1 || tx == minX)
          invariant pts == before + OpenInRow(ty, minX, tx)
          decreases maxX + 1 - tx
        {
          if grid[tx, ty] == None {
            pts := pts + [(tx, ty)];
          }
          tx := tx + 1;
        }
        ty := ty + 1;
      }
    }

    /**
     * GridWorld.getNeighbors(p): the agents other than p in the 3 by 3 window
     * around (x, y) clipped to the grid, row by row.
     */
    method ClippedNeighbors(self: AgentId, x: int, y: int) returns (ids: seq<AgentId>)
      requires Valid()
      ensures ids == OthersInWindow(self, Max(0, x - 1), Min(x + 1, SizeX - 1), Max(0, y - 1), Min(y + 1, SizeY - 1) + 1)
    {
      ids := ScanOthers(self, Max(0, x - 1), Min(x + 1, SizeX - 1), Max(0, y - 1), Min(y + 1, SizeY - 1));
    }

    /**
     * TorusWorld.getNeighbors(p, radius): the agents other than p in the
     * plain ranges xnorm(x - r) .. xnorm(x + r) by ynorm(y - r) .. ynorm(y + r).
     */
    method Neighbors(self: AgentId, x: int, y: int, radius: int) returns (ids: seq<AgentId>)
      requires Valid()
      ensures ids == OthersInWindow(self, Norm(x - radius, SizeX), Norm(x + radius, SizeX),
                                    Norm(y - radius, SizeY), Norm(y + radius, SizeY) + 1)
    {
      var minX := XNorm(x - radius);
      var maxX := XNorm(x + radius);
      var minY := YNorm(y - radius);
      var maxY := YNorm(y + radius);
      ids := ScanOthers(self, minX, maxX, minY, maxY);
    }

    /** The nested scan shared by both getNeighbors. */
    method ScanOthers(self: AgentId, minX: int, maxX: int, minY: int, maxY: int) returns (ids: seq<AgentId>)
      requires Valid() && 0 <= minX && maxX < SizeX && 0 <= minY && maxY < SizeY
      ensures ids == OthersInWindow(self, minX, maxX, minY, maxY + 1)
    {
      ids := [];
      var ty := minY;
      while ty <= maxY
        invariant minY <= ty && (ty <= maxY + 1 || ty == minY)
        invariant ids == OthersInWindow(self, minX, maxX, minY, ty)
        decreases maxY + 1 - ty
      {
        var tx := minX;
        ghost var before := ids;
        while tx <= maxX
          invariant minX <= tx && (tx <= maxX + 1 || tx == minX)
          invariant ids == before + OthersInRow(self, ty, minX, tx)
          decreases maxX + 1 - tx
        {
          if grid[tx, ty].Some? && grid[tx, ty].value != self {
            ids := ids + [grid[tx, ty].value];
          }
          tx := tx + 1;
        }
        ty := ty + 1;
      }
    }

    /** Region.getPeopleInRegion: the occupants of the rectangle, column by column. */
    method PeopleInRegion(r: Region) returns (ids: seq<AgentId>)
      requires Valid() && OnGrid(r)
      ensures ids == OccupantsInRegion(r, r.xMax + 1)
    {
      ids := [];
      var i := r.xMin;
      while i <= r.xMax
        invariant r.xMin <= i <= r.xMax + 1
        invariant ids == OccupantsInRegion(r, i)
      {
        var j := r.yMin;
        ghost var before := ids;
        while j <= r.yMax
          invariant r.yMin <= j <= r.yMax + 1
          invariant ids == before + OccupantsInColumn(i, r.yMin, j)
        {
          if grid[i, j] != None {
            ids := ids + [grid[i, j].value];
          }
          j := j + 1;
        }
        i := i + 1;
      }
    }

    /** Region.isFull */
    method RegionIsFull(r: Region) returns (full: bool)
      requires Valid() && OnGrid(r)
      ensures full == FullWith(r, |OccupantsInRegion(r, r.xMax + 1)|)
    {
      var people := PeopleInRegion(r);
      full := |people| >= (r.height - 3) * (r.width - 3);
    }

    /**
     * GridWorld.movePersonToRegion(person, r): nothing when r is full;
     * otherwise random points of r are tried until a move succeeds. The
     * draws are given; when they run out the agent stays where it was.
     */
    method MovePersonToRegion(id: AgentId, pos: Position, r: Region, draws: seq<(nat, nat)>) returns (placed: bool)
      requires Valid() && OnGrid(r) && InGrid(pos.x, pos.y)
      modifies grid, pos
      ensures old(FullWith(r, |OccupantsInRegion(r, r.xMax + 1)|)) ==> !placed
      ensures !placed ==> unchanged(grid) && unchanged(pos)
      ensures placed ==> InRegion(r, pos.x, pos.y) && Relocated(id, old(pos.x), old(pos.y), pos.x, pos.y)
    {
      var full := RegionIsFull(r);
      if full {
        return false;
      }
      var k := 0;
      while k < |draws|
        invariant 0 <= k <= |draws|
        invariant unchanged(grid) && unchanged(pos)
      {
        var p := RandomPoint(r, draws[k].0, draws[k].1);
        placed := MovePersonTo(id, pos, p.0, p.1);
        if placed {
          return true;
        }
        k := k + 1;
      }
      return false;
    }

    /**
     * GridWorld.movePersonToRegion(person): a first point is drawn with
     * getRandomRegionPoint; nothing more happens when every one of the
     * person's regions is full; otherwise points are drawn until a move
     * succeeds. Each draw is (region pick, dx, dy); when they run out the
     * agent stays where it was.
     */
    method MovePersonToAnyRegion(id: AgentId, pos: Position, regions: seq<Region>, draws: seq<(nat, nat, nat)>)
      returns (placed: bool)
      requires Valid() && InGrid(pos.x, pos.y) && |regions| > 0
      requires forall i :: 0 <= i < |regions| ==> OnGrid(regions[i])
      modifies grid, pos
      ensures (forall i :: 0 <= i < |regions| ==> old(FullWith(regions[i], |OccupantsInRegion(regions[i], regions[i].xMax + 1)|))) ==> !placed
      ensures !placed ==> unchanged(grid) && unchanged(pos)
      ensures placed ==> InGrid(pos.x, pos.y) && Relocated(id, old(pos.x), old(pos.y), pos.x, pos.y)
      ensures placed && |regions| == 1 ==> InRegion(regions[0], pos.x, pos.y)
      ensures placed && |regions| >= 2 ==> exists i :: 0 <= i < |regions| - 1 && InRegion(regions[i], pos.x, pos.y)
    {
      var allFull := true;
      var i := 0;
      while i < |regions|
        invariant 0 <= i <= |regions|
        invariant allFull <==> forall j :: 0 <= j < i ==> FullWith(regions[j], |OccupantsInRegion(regions[j], regions[j].xMax + 1)|)
        invariant unchanged(grid) && unchanged(pos)
      {
        var full := RegionIsFull(regions[i]);
        if !full {
          allFull := false;
        }
        i := i + 1;
      }
      if allFull {
        return false;
      }
      var k := 0;
      while k < |draws|
        invariant 0 <= k <= |draws|
        invariant unchanged(grid) && unchanged(pos)
      {
        var d := draws[k];
        RandomRegionPointSkipsLast(regions, d.0, d.1, d.2);
        var p := RandomRegionPoint(regions, d.0, d.1, d.2).value;
        var which := if |regions| == 1 then 0 else d.0 % (|regions| - 1);
        assert p == RandomPoint(regions[which], d.1, d.2);
        placed := MovePersonTo(id, pos, p.0, p.1);
        if placed {
          assert InRegion(regions[which], pos.x, pos.y);
          return true;
        }
        k := k + 1;
      }
      return false;
    }

    /**
     * TorusWorld.moveObjectInRegion: refused when the 3 by 3 window has no
     * free cell; otherwise unit steps are drawn until the wrapped target
     * lies in one of the agent's regions, and the move is refused when that
     * cell is occupied. The draws are given; when they run out no move is
     * made.
     */
    method MoveInRegion(id: AgentId, pos: Position, regions: seq<Region>, draws: seq<(nat, nat)>) returns (ok: bool)
      requires Valid() && InGrid(pos.x, pos.y)
      modifies grid, pos
      ensures old(OpenInWindow(pos.x - 1, pos.x + 1, pos.y - 1, pos.y + 2)) == [] ==> !ok
      ensures !ok ==> unchanged(grid) && unchanged(pos)
      ensures ok ==> InAnyRegion(regions, pos.x, pos.y) && InGrid(pos.x, pos.y)
      ensures ok ==> Relocated(id, old(pos.x), old(pos.y), pos.x, pos.y)
      ensures ok ==> WrappedNeighbour(old(pos.x), pos.x, SizeX) && WrappedNeighbour(old(pos.y), pos.y, SizeY)
    {
      var open := OpenNeighbors(pos.x, pos.y, 1);
      if |open| == 0 {
        return false;
      }
      var k := 0;
      while k < |draws| && !InAnyRegion(regions, Norm(pos.x + Step(draws[k].0), SizeX), Norm(pos.y + Step(draws[k].1), SizeY))
        invariant 0 <= k <= |draws|
      {
        k := k + 1;
      }
      if k == |draws| {
        return false;
      }
      var dx, dy := Step(draws[k].0), Step(draws[k].1);
      ok := MoveObject(id, pos, dx, dy);
    }

    /**
     * GridWorld.moveObjectInRegion: as the torus version, but the window is
     * clipped, the target is not wrapped, and a target off the grid is
     * refused.
     */
    method ClippedMoveInRegion(id: AgentId, pos: Position, regions: seq<Region>, draws: seq<(nat, nat)>) returns (ok: bool)
      requires Valid() && InGrid(pos.x, pos.y)
      modifies grid, pos
      ensures !ok ==> unchanged(grid) && unchanged(pos)
      ensures ok ==> InAnyRegion(regions, pos.x, pos.y) && InGrid(pos.x, pos.y)
      ensures ok ==> Relocated(id, old(pos.x), old(pos.y), pos.x, pos.y)
      ensures ok ==> -1 <= pos.x - old(pos.x) <= 1 && -1 <= pos.y - old(pos.y) <= 1
    {
      var open := ClippedOpenNeighbors(pos.x, pos.y);
      if |open| == 0 {
        return false;
      }
      var k := 0;
      while k < |draws| && !InAnyRegion(regions, pos.x + Step(draws[k].0), pos.y + Step(draws[k].1))
        invariant 0 <= k <= |draws|
      {
        k := k + 1;
      }
      if k == |draws| {
        return false;
      }
      var nx, ny := pos.x + Step(draws[k].0), pos.y + Step(draws[k].1);
      ok := MovePersonTo(id, pos, nx, ny);
    }
  }

  function Max(a: int, b: int): int { if a < b then b else a }
  function Min(a: int, b: int): int { if a < b then a else b }
}
