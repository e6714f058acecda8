/** The records of the simulation's entity directory: pops, workplaces, houses
    and restaurants, each carrying the entity that identifies it, and the
    `World` that holds them as sequences in iteration order. */
module Entities {
  import opened Ints

  datatype Option<+T> = None | Some(value: T)

  /** An entity identity of the directory. */
  type Entity = nat

  /** A continuous position; coordinates are exact reals. */
  datatype Vec2 = Vec2(x: real, y: real)

  /** A tile coordinate of the grid. */
  datatype TilePos = TilePos(x: u32, y: u32)

  datatype TilemapSize = TilemapSize(x: u32, y: u32)

  const TILE_SIZE: real := 16.0
  const MAP_SIZE: TilemapSize := TilemapSize(32, 32)

  datatype PopState = Idle | Working | Eating | Sleeping

  datatype Job = Job(workplace: Entity, salary: real, position: TilePos)

  datatype Pop = Pop(
    entity: Entity,
    money: i32,
    hunger: u32,
    energy: u32,
    job: Option<Job>,
    home: Option<Entity>,
    position: Vec2,
    destination: Option<Vec2>,
    state: PopState)

  datatype Workplace = Workplace(entity: Entity, capacity: u32, employees: seq<Entity>, position: TilePos)

  datatype House = House(entity: Entity, capacity: u32, residents: seq<Entity>, position: TilePos)

  /** A restaurant's capacity is informational: nothing enforces it. */
  datatype Restaurant = Restaurant(capacity: u32, position: TilePos)

  /** The centre of a tile, in world coordinates. */
  function WorldPosition(t: TilePos): Vec2 {
    Vec2(t.x as real * TILE_SIZE + TILE_SIZE / 2.0, t.y as real * TILE_SIZE + TILE_SIZE / 2.0)
  }

  /** A tile coordinate read as a position without scaling, as the restaurant
      search does. */
  function TileVec(t: TilePos): Vec2 {
    Vec2(t.x as real, t.y as real)
  }

  predicate UniqueWorkplaces(ws: seq<Workplace>) {
    forall i, j :: 0 <= i < j < |ws| ==> ws[i].entity != ws[j].entity
  }

  predicate UniqueHouses(hs: seq<House>) {
    forall i, j :: 0 <= i < j < |hs| ==> hs[i].entity != hs[j].entity
  }

  /** Looks a workplace up by its entity: the index of the first one that has
      it, or `None` when no workplace has it. */
  function FindWorkplace(ws: seq<Workplace>, e: Entity): (r: Option<nat>)
    ensures r.Some? ==> r.value < |ws| && ws[r.value].entity == e
    ensures r.Some? ==> forall j :: 0 <= j < r.value ==> ws[j].entity != e
    ensures r.None? ==> forall j :: 0 <= j < |ws| ==> ws[j].entity != e
  {
    if ws == [] then None
    else if ws[0].entity == e then Some(0)
    else match FindWorkplace(ws[1..], e)
      case None => None
      case Some(k) => Some(k + 1)
  }

  /** Looks a house up by its entity, like `FindWorkplace`. */
  function FindHouse(hs: seq<House>, e: Entity): (r: Option<nat>)
    ensures r.Some? ==> r.value < |hs| && hs[r.value].entity == e
    ensures r.Some? ==> forall j :: 0 <= j < r.value ==> hs[j].entity != e
    ensures r.None? ==> forall j :: 0 <= j < |hs| ==> hs[j].entity != e
  {
    if hs == [] then None
    else if hs[0].entity == e then Some(0)
    else match FindHouse(hs[1..], e)
      case None => None
      case Some(k) => Some(k + 1)
  }

  /** The entity directory: every component table in iteration order, and the
      size of the grid. */
  class World {
    var pops: seq<Pop>
    var workplaces: seq<Workplace>
    var houses: seq<House>
    var restaurants: seq<Restaurant>
    var mapSize: TilemapSize

    /** Entities are unique within each table, and the grid has at least one
        tile per axis. */
    ghost predicate Valid()
      reads this
    {
      mapSize.x >= 1 && mapSize.y >= 1 && UniqueWorkplaces(workplaces) && UniqueHouses(houses)
    }

    constructor (pops: seq<Pop>, workplaces: seq<Workplace>, houses: seq<House>,
                 restaurants: seq<Restaurant>, mapSize: TilemapSize)
      requires mapSize.x >= 1 && mapSize.y >= 1
      requires UniqueWorkplaces(workplaces) && UniqueHouses(houses)
      ensures Valid()
      ensures this.pops == pops && this.workplaces == workplaces && this.houses == houses
      ensures this.restaurants == restaurants && this.mapSize == mapSize
    {
      this.pops := pops;
      this.workplaces := workplaces;
      this.houses := houses;
      this.restaurants := restaurants;
      this.mapSize := mapSize;
    }
  }
}
