/** The nine-cell neighbour index: a scene is cut into cells, each cell keeps the set of roles in it,
    and a query collects the cell of a role and the eight around it.

    The specification is a plain map from roles to positions; a query must agree with a search
    of that map.
  */
module Aoi {
  type RoleId = int

  datatype Position = Position(x: int, y: int)

  // ----- Cells ------------------------------------------------------------------------------------

  /** Division as in the source: it truncates towards zero. */
  function Truncated(x: int, width: int): int
    requires width > 0
  {
    if x >= 0 then x / width else -((-x) / width)
  }

  /** The cell of a coordinate among `count` cells of the given width; the last one has no end. */
  function CellOf(x: int, width: int, count: int): int
    requires width > 0
  {
    if Truncated(x, width) < count - 1 then Truncated(x, width) else count - 1
  }

  predicate Adjacent(a: int, b: int) {
    -1 <= a - b <= 1
  }

  lemma Scaled(a: int, b: int, c: int)
    requires c >= 0
    ensures a <= b ==> c * a <= c * b
  {
  }

  lemma QuotientBelow(x: int, width: int, q: int)
    requires width > 0 && x >= 0 && x < width * q
    ensures x / width < q
  {
    Scaled(q, x / width, width);
  }

  lemma QuotientAtLeast(x: int, width: int, q: int)
    requires width > 0 && x >= width * q && q >= 0 && x >= 0
    ensures x / width >= q
  {
    var p := x / width;
    assert x < width * (p + 1);
    Scaled(p + 1, q, width);
  }

  lemma QuotientBounds(x: int, width: int)
    requires width > 0 && x >= 0
    ensures 0 <= width * (x / width) <= x < width * (x / width) + width
  {
  }

  /** Anything above one cell width below zero has a cell. */
  lemma CellInRange(x: int, width: int, count: int)
    requires width > 0 && count > 0 && x > -width
    ensures 0 <= CellOf(x, width, count) < count
    ensures x <= 0 ==> CellOf(x, width, count) == 0
  {
    if x < 0 {
      QuotientBelow(-x, width, 1);
    } else {
      QuotientBounds(x, width);
    }
  }

  lemma NextCell(x: int, y: int, width: int, count: int)
    requires width > 0 && count > 0 && -width < x <= y <= x + width
    ensures 0 <= CellOf(y, width, count) - CellOf(x, width, count) <= 1
  {
    CellInRange(x, width, count);
    CellInRange(y, width, count);
    if x >= 0 {
      QuotientBounds(x, width);
      var q := x / width;
      assert width * (q + 2) == width * q + width + width;
      QuotientBelow(y, width, q + 2);
      QuotientAtLeast(y, width, q);
    } else if y > 0 {
      QuotientBelow(y, width, 1);
    }
  }

  /** Coordinates at most one cell width apart are in the same or in adjacent cells. */
  lemma WithinReach(x: int, y: int, width: int, count: int)
    requires width > 0 && count > 0 && x > -width && y > -width && -width <= x - y <= width
    ensures Adjacent(CellOf(x, width, count), CellOf(y, width, count))
  {
    if x <= y {
      NextCell(x, y, width, count);
    } else {
      NextCell(y, x, width, count);
    }
  }

  lemma FarCell(x: int, y: int, width: int, count: int)
    requires width > 0 && count > 0 && 0 <= x && x + 2 * width <= y < width * count
    ensures CellOf(y, width, count) >= CellOf(x, width, count) + 2
  {
    QuotientBounds(x, width);
    QuotientBelow(y, width, count);
    var q := x / width;
    assert width * (q + 2) == width * q + 2 * width;
    QuotientAtLeast(y, width, q + 2);
  }

  /** Coordinates in the grid that are two cell widths or more apart are not. */
  lemma OutOfReach(x: int, y: int, width: int, count: int)
    requires width > 0 && count > 0 && 0 <= x < width * count && 0 <= y < width * count
    requires x - y >= 2 * width || y - x >= 2 * width
    ensures !Adjacent(CellOf(x, width, count), CellOf(y, width, count))
  {
    if x <= y {
      FarCell(x, y, width, count);
    } else {
      FarCell(y, x, width, count);
    }
  }

  // ----- The grid ---------------------------------------------------------------------------------

  /** The geometry fixed by the constructor. */
  datatype Grid = Grid(columns: int, rows: int, cellWidth: int, cellHeight: int) {
    predicate Legal() {
      columns > 0 && rows > 0 && cellWidth > 0 && cellHeight > 0
    }

    function Column(p: Position): int
      requires Legal()
    {
      CellOf(p.x, cellWidth, columns)
    }

    function Row(p: Position): int
      requires Legal()
    {
      CellOf(p.y, cellHeight, rows)
    }

    /** What the source demands of a position: a lower one would index before the first cell. */
    predicate Holds(p: Position) {
      p.x > -cellWidth && p.y > -cellHeight
    }

    /** The positions the cells are meant for. */
    predicate Covers(p: Position) {
      0 <= p.x < cellWidth * columns && 0 <= p.y < cellHeight * rows
    }

    /** `positionToGrid`. */
    function Index(p: Position): int
      requires Legal()
    {
      Row(p) * columns + Column(p)
    }

    function ColumnOf(i: int): int
      requires Legal()
    {
      i % columns
    }

    function RowOf(i: int): int
      requires Legal()
    {
      i / columns
    }

    /** The two positions are in the same or in adjacent cells. */
    predicate Near(p: Position, q: Position)
      requires Legal()
    {
      Adjacent(Column(p), Column(q)) && Adjacent(Row(p), Row(q))
    }
  }

  lemma IndexParts(columns: int, column: int, row: int)
    requires 0 <= column < columns && 0 <= row
    ensures (row * columns + column) / columns == row
    ensures (row * columns + column) % columns == column
  {
    var i := row * columns + column;
    var q, r := i / columns, i % columns;
    assert i == columns * q + r && 0 <= r < columns;
    QuotientBelow(i, columns, row + 1);
    QuotientAtLeast(i, columns, row);
  }

  lemma IndexInRange(columns: int, rows: int, column: int, row: int)
    requires 0 <= column < columns && 0 <= row < rows
    ensures 0 <= row * columns + column < columns * rows
  {
    assert (row + 1) * columns <= rows * columns;
  }

  lemma RowInRange(columns: int, rows: int, i: int)
    requires columns > 0 && 0 <= i < columns * rows
    ensures 0 <= i / columns < rows && 0 <= i % columns < columns
    ensures i == (i / columns) * columns + i % columns
  {
    QuotientBelow(i, columns, rows);
  }

  /** The index of a position names its cell. */
  lemma IndexNamesCell(g: Grid, p: Position)
    requires g.Legal() && g.Holds(p)
    ensures 0 <= g.Index(p) < g.columns * g.rows
    ensures g.ColumnOf(g.Index(p)) == g.Column(p) && g.RowOf(g.Index(p)) == g.Row(p)
  {
    CellInRange(p.x, g.cellWidth, g.columns);
    CellInRange(p.y, g.cellHeight, g.rows);
    IndexInRange(g.columns, g.rows, g.Column(p), g.Row(p));
    IndexParts(g.columns, g.Column(p), g.Row(p));
  }

  // ----- What a query means -----------------------------------------------------------------------

  /** A query sees every role at most one cell width and one cell height away. */
  lemma SeesWithinReach(g: Grid, p: Position, q: Position)
    requires g.Legal() && g.Holds(p) && g.Holds(q)
    requires -g.cellWidth <= p.x - q.x <= g.cellWidth && -g.cellHeight <= p.y - q.y <= g.cellHeight
    ensures g.Near(p, q)
  {
    WithinReach(p.x, q.x, g.cellWidth, g.columns);
    WithinReach(p.y, q.y, g.cellHeight, g.rows);
  }

  /** And none that is two cell widths or two cell heights away, if both are on the grid. */
  lemma MissesOutOfReach(g: Grid, p: Position, q: Position)
    requires g.Legal() && g.Covers(p) && g.Covers(q)
    requires p.x - q.x >= 2 * g.cellWidth || q.x - p.x >= 2 * g.cellWidth
          || p.y - q.y >= 2 * g.cellHeight || q.y - p.y >= 2 * g.cellHeight
    ensures !g.Near(p, q)
  {
    if p.x - q.x >= 2 * g.cellWidth || q.x - p.x >= 2 * g.cellWidth {
      OutOfReach(p.x, q.x, g.cellWidth, g.columns);
    } else {
      OutOfReach(p.y, q.y, g.cellHeight, g.rows);
    }
  }

  /** Beyond the grid the last cell goes on for ever, so there distance proves nothing. */
  lemma LastCellHasNoEnd(g: Grid, p: Position, distance: nat)
    requires g.Legal() && g.Holds(p) && p.x >= g.cellWidth * g.columns
    ensures g.Near(p, Position(p.x + distance, p.y))
  {
    QuotientAtLeast(p.x, g.cellWidth, g.columns);
    QuotientAtLeast(p.x + distance, g.cellWidth, g.columns);
  }

  // ----- Sizing of a scene ------------------------------------------------------------------------

  /** How many cells of nominally 100 units `Scene` asks for, and what `AOI` makes of it. */
  function CellCount(length: int): int {
    (length + 99) / 100
  }

  function CellSize(length: int, count: int): int
    requires count > 0
  {
    (length + count - 1) / count
  }

  /** The cells cover the scene. */
  lemma CellsCover(length: int, count: int)
    requires length > 0 && count > 0
    ensures CellSize(length, count) > 0
    ensures length <= CellSize(length, count) * count < length + count
  {
    QuotientBounds(length + count - 1, count);
    QuotientAtLeast(length + count - 1, count, 1);
  }

  lemma SmallCells(size: int, count: int)
    requires count >= 2 && size * count >= 100 * count - 99
    ensures size >= 51
  {
    Scaled(size, 50, count);
  }

  lemma LargeCells(size: int, count: int)
    requires count >= 1 && size * count < 100 * count + count
    ensures size <= 100
  {
    Scaled(101, size, count);
  }

  /** A cell of a scene is 51 to 100 units wide, or it is the only one on its axis. */
  lemma SceneCells(length: int)
    requires length > 0
    ensures var count := CellCount(length);
            count >= 1 && CellSize(length, count) <= 100 && (count == 1 || CellSize(length, count) >= 51)
  {
    var count := CellCount(length);
    CellsCover(length, count);
    LargeCells(CellSize(length, count), count);
    if count >= 2 {
      SmallCells(CellSize(length, count), count);
    }
  }

  function SceneGrid(width: int, height: int): Grid
    requires width > 0 && height > 0
  {
    SceneCells(width);
    SceneCells(height);
    Grid(CellCount(width), CellCount(height),
         CellSize(width, CellCount(width)), CellSize(height, CellCount(height)))
  }

  lemma WithinSceneReach(x: int, y: int, length: int)
    requires length > 0
    requires x > -CellSize(length, CellCount(length)) && y > -CellSize(length, CellCount(length))
    requires CellCount(length) == 1 || -51 <= x - y <= 51
    ensures var count := CellCount(length);
            Adjacent(CellOf(x, CellSize(length, count), count), CellOf(y, CellSize(length, count), count))
  {
    SceneCells(length);
    var count := CellCount(length);
    if count == 1 {
      CellInRange(x, CellSize(length, count), count);
      CellInRange(y, CellSize(length, count), count);
    } else {
      WithinReach(x, y, CellSize(length, count), count);
    }
  }

  /** In a scene a query sees at least 51 units far on each axis, or the whole axis. */
  lemma SceneReach(width: int, height: int, p: Position, q: Position)
    requires width > 0 && height > 0
    requires SceneGrid(width, height).Holds(p) && SceneGrid(width, height).Holds(q)
    requires CellCount(width) == 1 || -51 <= p.x - q.x <= 51
    requires CellCount(height) == 1 || -51 <= p.y - q.y <= 51
    ensures SceneGrid(width, height).Legal() && SceneGrid(width, height).Near(p, q)
  {
    WithinSceneReach(p.x, q.x, width);
    WithinSceneReach(p.y, q.y, height);
  }

  /** The least cell size of 51 does occur. */
  lemma SmallestCell()
    ensures CellCount(101) == 2 && CellSize(101, 2) == 51
  {
  }

  // ----- The index --------------------------------------------------------------------------------

  predicate NoDuplicates<T(==)>(s: seq<T>) {
    forall i, j :: 0 <= i < j < |s| ==> s[i] != s[j]
  }

  lemma PushNew<T>(s: seq<T>, x: T)
    requires NoDuplicates(s) && x !in s
    ensures NoDuplicates(s + [x])
  {
  }

  /** The cells of one row, next to `column` and before column `end`. */
  predicate InRow(g: Grid, k: int, row: int, column: int, end: int)
    requires g.Legal()
  {
    0 <= k < g.columns * g.rows && g.RowOf(k) == row && Adjacent(g.ColumnOf(k), column) && g.ColumnOf(k) < end
  }

  /** The cells around (`column`, `row`) in the rows before `end`. */
  predicate InRows(g: Grid, k: int, row: int, column: int, end: int)
    requires g.Legal()
  {
    && 0 <= k < g.columns * g.rows
    && Adjacent(g.RowOf(k), row) && g.RowOf(k) < end
    && Adjacent(g.ColumnOf(k), column)
  }

  predicate IsCell(g: Grid, k: int, row: int, column: int) {
    0 <= row < g.rows && 0 <= column < g.columns && k == row * g.columns + column
  }

  predicate Around(g: Grid, k: int, row: int, column: int)
    requires g.Legal()
  {
    0 <= k < g.columns * g.rows && Adjacent(g.RowOf(k), row) && Adjacent(g.ColumnOf(k), column)
  }

  /** The next column of a row, if it exists, adds just its cell. */
  lemma NextColumn(g: Grid, k: int, row: int, column: int, next: int)
    requires g.Legal() && Adjacent(next, column)
    ensures InRow(g, k, row, column, next + 1) <==> InRow(g, k, row, column, next) || IsCell(g, k, row, next)
  {
    if 0 <= k < g.columns * g.rows {
      RowInRange(g.columns, g.rows, k);
    }
    if 0 <= row < g.rows && 0 <= next < g.columns {
      IndexParts(g.columns, next, row);
      IndexInRange(g.columns, g.rows, next, row);
    }
  }

  /** The inner loop. */
  method AroundInRow(g: Grid, row: int, column: int, before: seq<int>) returns (result: seq<int>)
    requires g.Legal() && NoDuplicates(before)
    requires forall k :: k in before ==> 0 <= k < g.columns * g.rows && g.RowOf(k) != row
    ensures NoDuplicates(result)
    ensures forall k :: k in result <==> k in before || InRow(g, k, row, column, column + 2)
  {
    result := before;
    var dx := -1;
    while dx <= 1
      invariant -1 <= dx <= 2 && NoDuplicates(result)
      invariant forall k :: k in result <==> k in before || InRow(g, k, row, column, column + dx)
    {
      var nx := column + dx;
      forall k
        ensures InRow(g, k, row, column, nx + 1) <==> InRow(g, k, row, column, nx) || IsCell(g, k, row, nx)
      {
        NextColumn(g, k, row, column, nx);
      }
      if 0 <= row < g.rows && 0 <= nx < g.columns {
        IndexParts(g.columns, nx, row);
        PushNew(result, row * g.columns + nx);
        result := result + [row * g.columns + nx];
      }
      dx := dx + 1;
    }
  }

  /** `getAroundGrids`: the cell `i` and those around it that exist, each once. */
  method AroundGrids(g: Grid, i: int) returns (result: seq<int>)
    requires g.Legal() && 0 <= i < g.columns * g.rows
    ensures NoDuplicates(result)
    ensures forall k :: k in result <==> Around(g, k, g.RowOf(i), g.ColumnOf(i))
  {
    result := [];
    var row, column := i / g.columns, i % g.columns;
    var dy := -1;
    while dy <= 1
      invariant -1 <= dy <= 2 && NoDuplicates(result)
      invariant forall k :: k in result <==> InRows(g, k, row, column, row + dy)
    {
      result := AroundInRow(g, row + dy, column, result);
      dy := dy + 1;
    }
  }

  /** The roles a query for `roleId` must return, by a search of all positions. */
  predicate Sees(g: Grid, positions: map<RoleId, Position>, roleId: RoleId, id: RoleId)
    requires g.Legal()
  {
    roleId in positions && id in positions && id != roleId && g.Near(positions[roleId], positions[id])
  }

  /** Who sees whom is mutual. */
  lemma SeesIsSymmetric(g: Grid, positions: map<RoleId, Position>, a: RoleId, b: RoleId)
    requires g.Legal()
    ensures Sees(g, positions, a, b) <==> Sees(g, positions, b, a)
  {
  }

  lemma NearIsAround(g: Grid, p: Position, q: Position)
    requires g.Legal() && g.Holds(p) && g.Holds(q)
    ensures g.Near(p, q) <==> Around(g, g.Index(q), g.RowOf(g.Index(p)), g.ColumnOf(g.Index(p)))
  {
    IndexNamesCell(g, p);
    IndexNamesCell(g, q);
  }

  lemma SomeElement(s: set<RoleId>)
    ensures s == {} || exists id :: id in s
  {
    if forall id :: id !in s {
      assert s == {};
    }
  }

  /** A role is in the set of its cell and in no other. */
  ghost predicate CellsMatch(grids: seq<set<RoleId>>, roleToGrid: map<RoleId, int>) {
    forall k, id :: 0 <= k < |grids| ==> (id in grids[k] <==> id in roleToGrid && roleToGrid[id] == k)
  }

  function Inserted(grids: seq<set<RoleId>>, k: int, id: RoleId): seq<set<RoleId>>
    requires 0 <= k < |grids|
  {
    grids[k := grids[k] + {id}]
  }

  function Erased(grids: seq<set<RoleId>>, k: int, id: RoleId): seq<set<RoleId>>
    requires 0 <= k < |grids|
  {
    grids[k := grids[k] - {id}]
  }

  /** Entering keeps the sets right exactly if the role was not in another cell. */
  lemma EnterMatchIff(grids: seq<set<RoleId>>, roleToGrid: map<RoleId, int>, k: int, id: RoleId)
    requires CellsMatch(grids, roleToGrid) && 0 <= k < |grids|
    requires id in roleToGrid ==> 0 <= roleToGrid[id] < |grids|
    ensures CellsMatch(Inserted(grids, k, id), roleToGrid[id := k]) <==> id !in roleToGrid || roleToGrid[id] == k
  {
    if id in roleToGrid && roleToGrid[id] != k {
      var was := roleToGrid[id];
      assert id in grids[was];
      assert id in Inserted(grids, k, id)[was] && roleToGrid[id := k][id] != was;
    }
  }

  lemma LeaveMatch(grids: seq<set<RoleId>>, roleToGrid: map<RoleId, int>, id: RoleId)
    requires CellsMatch(grids, roleToGrid) && id in roleToGrid && 0 <= roleToGrid[id] < |grids|
    ensures CellsMatch(Erased(grids, roleToGrid[id], id), roleToGrid - {id})
  {
  }

  lemma MoveMatch(grids: seq<set<RoleId>>, roleToGrid: map<RoleId, int>, id: RoleId, k: int)
    requires CellsMatch(grids, roleToGrid) && id in roleToGrid && 0 <= roleToGrid[id] < |grids|
    requires 0 <= k < |grids|
    ensures CellsMatch(Inserted(Erased(grids, roleToGrid[id], id), k, id), roleToGrid[id := k])
  {
    LeaveMatch(grids, roleToGrid, id);
    EnterMatchIff(Erased(grids, roleToGrid[id], id), roleToGrid - {id}, k, id);
    assert (roleToGrid - {id})[id := k] == roleToGrid[id := k];
  }

  class AOI {
    const grid: Grid
    var grids: seq<set<RoleId>>
    var roleToGrid: map<RoleId, int>
    var rolePositions: map<RoleId, Position>

    /** Every role's cell is the one of its position. */
    ghost predicate Located()
      reads this
    {
      && grid.Legal()
      && |grids| == grid.columns * grid.rows
      && roleToGrid.Keys == rolePositions.Keys
      && (forall id :: id in rolePositions
            ==> grid.Holds(rolePositions[id]) && roleToGrid[id] == grid.Index(rolePositions[id]))
    }

    /** And it is in the set of that cell and of no other. */
    ghost predicate Valid()
      reads this
    {
      Located() && CellsMatch(grids, roleToGrid)
    }

    constructor (width: int, height: int, columns: int, rows: int)
      requires width > 0 && height > 0 && columns > 0 && rows > 0
      ensures Valid() && rolePositions == map[]
      ensures grid == Grid(columns, rows, CellSize(width, columns), CellSize(height, rows))
    {
      CellsCover(width, columns);
      CellsCover(height, rows);
      Scaled(0, rows, columns);
      grid := Grid(columns, rows, (width + columns - 1) / columns, (height + rows - 1) / rows);
      grids := seq(columns * rows, i => {});
      roleToGrid, rolePositions := map[], map[];
    }

    /** A role that is already present in another cell is left in that cell's set too, so exactly then
        the sets stop agreeing with the positions. */
    method Enter(roleId: RoleId, x: int, y: int)
      requires Valid() && grid.Holds(Position(x, y))
      modifies this
      ensures Located() && rolePositions == old(rolePositions)[roleId := Position(x, y)]
      ensures Valid() <==> roleId !in old(roleToGrid) || old(roleToGrid)[roleId] == grid.Index(Position(x, y))
    {
      IndexNamesCell(grid, Position(x, y));
      if roleId in roleToGrid {
        IndexNamesCell(grid, rolePositions[roleId]);
      }
      var gridIndex := grid.Index(Position(x, y));
      EnterMatchIff(grids, roleToGrid, gridIndex, roleId);
      grids := Inserted(grids, gridIndex, roleId);
      roleToGrid := roleToGrid[roleId := gridIndex];
      rolePositions := rolePositions[roleId := Position(x, y)];
    }

    method Leave(roleId: RoleId)
      requires Valid()
      modifies this
      ensures Valid() && rolePositions == old(rolePositions) - {roleId}
    {
      if roleId in roleToGrid {
        IndexNamesCell(grid, rolePositions[roleId]);
        LeaveMatch(grids, roleToGrid, roleId);
        grids := Erased(grids, roleToGrid[roleId], roleId);
        roleToGrid := roleToGrid - {roleId};
        rolePositions := rolePositions - {roleId};
      }
    }

    method Move(roleId: RoleId, newX: int, newY: int)
      requires Valid() && grid.Holds(Position(newX, newY))
      modifies this
      ensures Valid()
      ensures rolePositions == if roleId in old(rolePositions)
                               then old(rolePositions)[roleId := Position(newX, newY)] else old(rolePositions)
    {
      IndexNamesCell(grid, Position(newX, newY));
      var newGrid := grid.Index(Position(newX, newY));
      if roleId in roleToGrid {
        IndexNamesCell(grid, rolePositions[roleId]);
        var k := roleToGrid[roleId];
        if k != newGrid {
          MoveMatch(grids, roleToGrid, roleId, newGrid);
          grids := Erased(grids, k, roleId);
          grids := Inserted(grids, newGrid, roleId);
          roleToGrid := roleToGrid[roleId := newGrid];
        }
        rolePositions := rolePositions[roleId := Position(newX, newY)];
      }
    }

    /** The loops over the sets of the given cells; the order within a set is unknown. */
    method Collect(around: seq<int>, skip: set<RoleId>) returns (result: seq<RoleId>)
      requires Valid() && NoDuplicates(around)
      requires forall k :: k in around ==> 0 <= k < |grids|
      ensures NoDuplicates(result)
      ensures forall id :: id in result <==> id !in skip && id in roleToGrid && roleToGrid[id] in around
    {
      result := [];
      var i := 0;
      while i < |around|
        invariant 0 <= i <= |around| && NoDuplicates(result)
        invariant forall id :: id in result <==> id !in skip && id in roleToGrid && roleToGrid[id] in around[..i]
      {
        assert around[i] in around && around[i] !in around[..i];
        result := CollectCell(around[i], skip, result, around[..i]);
        assert around[..i + 1] == around[..i] + [around[i]];
        i := i + 1;
      }
      assert around[..|around|] == around;
    }

    method CollectCell(k: int, skip: set<RoleId>, before: seq<RoleId>, ghost done: seq<int>)
      returns (result: seq<RoleId>)
      requires Valid() && 0 <= k < |grids| && k !in done && NoDuplicates(before)
      requires forall id :: id in before <==> id !in skip && id in roleToGrid && roleToGrid[id] in done
      ensures NoDuplicates(result)
      ensures forall id :: id in result <==> id in before || (id !in skip && id in grids[k])
    {
      result := before;
      var rest := grids[k];
      while rest != {}
        invariant rest <= grids[k] && NoDuplicates(result)
        invariant forall id :: id in result <==> id in before || (id !in skip && id in grids[k] && id !in rest)
        decreases |rest|
      {
        SomeElement(rest);
        var id :| id in rest;
        rest := rest - {id};
        if id !in skip {
          PushNew(result, id);
          result := result + [id];
        }
      }
    }

    lemma CellsAgree(p: Position, around: seq<int>)
      requires Valid() && grid.Holds(p)
      requires forall k :: k in around
                 <==> Around(grid, k, grid.RowOf(grid.Index(p)), grid.ColumnOf(grid.Index(p)))
      ensures forall id :: id in roleToGrid ==> (roleToGrid[id] in around <==> grid.Near(p, rolePositions[id]))
    {
      forall id | id in roleToGrid
        ensures roleToGrid[id] in around <==> grid.Near(p, rolePositions[id])
      {
        NearIsAround(grid, p, rolePositions[id]);
      }
    }

    /** `getAroundRoles` of a role: what the search of all positions gives, each role once. */
    method GetAroundRoles(roleId: RoleId) returns (result: seq<RoleId>)
      requires Valid()
      ensures NoDuplicates(result)
      ensures forall id :: id in result <==> Sees(grid, rolePositions, roleId, id)
      ensures roleId !in result && (roleId !in rolePositions ==> result == [])
    {
      if roleId !in roleToGrid {
        return [];
      }
      IndexNamesCell(grid, rolePositions[roleId]);
      var around := AroundGrids(grid, roleToGrid[roleId]);
      CellsAgree(rolePositions[roleId], around);
      result := Collect(around, {roleId});
    }

    /** `getAroundRoles` of a place. */
    method GetAroundRolesAt(x: int, y: int) returns (result: seq<RoleId>)
      requires Valid() && grid.Holds(Position(x, y))
      ensures NoDuplicates(result)
      ensures forall id :: id in result
                <==> id in rolePositions && grid.Near(Position(x, y), rolePositions[id])
    {
      IndexNamesCell(grid, Position(x, y));
      var around := AroundGrids(grid, grid.Index(Position(x, y)));
      CellsAgree(Position(x, y), around);
      result := Collect(around, {});
    }
  }
}
