/** A scene keeps its own table of roles next to the neighbour index. */
module Scene {
  import opened Aoi

  class Scene {
    const width: int
    const height: int
    const aoi: AOI
    var roles: map<RoleId, Position>

    ghost predicate Valid()
      reads this, aoi
    {
      && width > 0 && height > 0
      && aoi.grid == SceneGrid(width, height)
      && aoi.Valid()
      && roles == aoi.rolePositions
    }

    constructor (width: int, height: int)
      requires width > 0 && height > 0
      ensures Valid() && fresh(aoi) && roles == map[]
      ensures this.width == width && this.height == height
    {
      SceneCells(width);
      SceneCells(height);
      this.width, this.height, roles := width, height, map[];
      aoi := new AOI(width, height, (width + 99) / 100, (height + 99) / 100);
    }

    /** Both tables take the new position; the cells keep agreeing with it unless the role was already
        in the scene, in another cell. */
    method Enter(roleId: RoleId, x: int, y: int)
      requires Valid() && aoi.grid.Holds(Position(x, y))
      modifies this, aoi
      ensures roles == aoi.rolePositions == old(roles)[roleId := Position(x, y)]
      ensures Valid() <==> roleId !in old(roles) || aoi.grid.Index(old(roles)[roleId]) == aoi.grid.Index(Position(x, y))
    {
      roles := roles[roleId := Position(x, y)];
      aoi.Enter(roleId, x, y);
    }

    method Leave(roleId: RoleId)
      requires Valid()
      modifies this, aoi
      ensures Valid() && roles == old(roles) - {roleId}
    {
      roles := roles - {roleId};
      aoi.Leave(roleId);
    }

    method Move(roleId: RoleId, newX: int, newY: int)
      requires Valid() && aoi.grid.Holds(Position(newX, newY))
      modifies this, aoi
      ensures Valid()
      ensures roles == if roleId in old(roles) then old(roles)[roleId := Position(newX, newY)] else old(roles)
    {
      if roleId in roles {
        roles := roles[roleId := Position(newX, newY)];
        aoi.Move(roleId, newX, newY);
      }
    }

    /** A query returns each role near by once, and no one else. */
    method GetAroundRoles(roleId: RoleId) returns (result: seq<RoleId>)
      requires Valid()
      ensures NoDuplicates(result)
      ensures forall id :: id in result <==> Sees(aoi.grid, roles, roleId, id)
    {
      result := aoi.GetAroundRoles(roleId);
    }
  }

  /** In terms of the scene: a query never misses a role within 51 units on both axes, and never
      returns one 200 units away, as long as both are in the grid. */
  lemma SceneQuery(width: int, height: int, roles: map<RoleId, Position>, a: RoleId, b: RoleId)
    requires width > 0 && height > 0 && a != b && a in roles && b in roles
    requires SceneGrid(width, height).Holds(roles[a]) && SceneGrid(width, height).Holds(roles[b])
    ensures var g, p, q := SceneGrid(width, height), roles[a], roles[b];
            && g.Legal()
            && (-51 <= q.x - p.x <= 51 && -51 <= q.y - p.y <= 51 ==> Sees(g, roles, a, b))
            && (Sees(g, roles, a, b) && g.Covers(p) && g.Covers(q)
                ==> -200 < q.x - p.x < 200 && -200 < q.y - p.y < 200)
  {
    var g, p, q := SceneGrid(width, height), roles[a], roles[b];
    SceneCells(width);
    SceneCells(height);
    assert g.Legal();
    if -51 <= q.x - p.x <= 51 && -51 <= q.y - p.y <= 51 {
      SceneReach(width, height, p, q);
    }
    if g.Near(p, q) && g.Covers(p) && g.Covers(q) {
      SceneHorizon(width, height, p, q);
    }
  }

  /** Nobody 200 units away is seen. */
  lemma SceneHorizon(width: int, height: int, p: Position, q: Position)
    requires width > 0 && height > 0 && SceneGrid(width, height).Legal()
    requires SceneGrid(width, height).Covers(p) && SceneGrid(width, height).Covers(q)
    requires SceneGrid(width, height).Near(p, q)
    ensures -200 < q.x - p.x < 200 && -200 < q.y - p.y < 200
  {
    SceneCells(width);
    SceneCells(height);
    if !(-200 < q.x - p.x < 200 && -200 < q.y - p.y < 200) {
      MissesOutOfReach(SceneGrid(width, height), p, q);
    }
  }
}
