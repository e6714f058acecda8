/** One fixed simulation step, in the order the schedule runs its systems:
    the clock ticks, every pop updates its needs and state, the markets are
    rebuilt, and pops are matched to jobs and homes. */
module Simulation {
  import opened Entities
  import Clock
  import opened Needs
  import opened Markets

  /** The directory keeps unique entities and no workplace or house over
      capacity. */
  ghost predicate Consistent(world: World)
    reads world
  {
    world.Valid() && WorkplacesWithinCapacity(world.workplaces) && HousesWithinCapacity(world.houses)
  }

  /** Matching leaves every pop's needs as they were, so bounded needs stay
      bounded. */
  lemma MatchingKeepsNeeds(s: Market, pops: seq<Pop>)
    requires NeedsBounded(pops)
    ensures NeedsBounded(ServedPops(s, pops, |pops|))
  {
    var r := ServedPops(s, pops, |pops|);
    forall k | 0 <= k < |r|
      ensures r[k].hunger <= NEED_MAX && r[k].energy <= NEED_MAX
    {
      assert MatchedFrom(r[k], pops[k]);
    }
  }

  /** The market systems of a step: the rebuild, then the matching pass over
      the pops as they are. The directory stays consistent. */
  method RebuildAndMatch(world: World, jobs: JobMarket, housing: HousingMarket)
    requires Consistent(world)
    modifies world`pops, world`workplaces, world`houses, jobs, housing
    ensures var market, pops := Rebuilt(old(world.workplaces), old(world.houses)), old(world.pops);
            && world.pops == ServedPops(market, pops, |pops|)
            && MarketOf(world, jobs, housing) == MarketAfter(market, pops, |pops|)
    ensures Consistent(world)
  {
    ManageMarkets(world, jobs, housing);
    ghost var market, pops := MarketOf(world, jobs, housing), world.pops;
    AssignJobsAndHousing(world, jobs, housing);
    RebuildThenAssignRespectsCapacity(pops, market.workplaces, market.houses);
  }

  /** The pop and market systems of a step, run against a clock that has
      already ticked: every pop updates, then the markets are rebuilt and
      matched. */
  method UpdateAndMatch(clock: Clock.GameClock, world: World, jobs: JobMarket, housing: HousingMarket, offsets: seq<Vec2>)
    requires clock.Valid() && Consistent(world)
    requires |offsets| == |world.pops|
    modifies world`pops, world`workplaces, world`houses, jobs, housing
    ensures var env := Surroundings(clock.Hour(), clock.ticksPerHour, old(world.houses), world.restaurants, world.mapSize);
            var updated, market := UpdateAll(old(world.pops), env, offsets), Rebuilt(old(world.workplaces), old(world.houses));
            && world.pops == ServedPops(market, updated, |updated|)
            && MarketOf(world, jobs, housing) == MarketAfter(market, updated, |updated|)
    ensures Consistent(world)
    ensures NeedsBounded(world.pops)
  {
    ghost var env := SurroundingsOf(clock, world);
    UpdatePops(world, clock, offsets);
    ghost var updated := world.pops;
    assert updated == UpdateAll(old(world.pops), env, offsets);
    ghost var market := Rebuilt(world.workplaces, world.houses);
    RebuildAndMatch(world, jobs, housing);
    assert world.pops == ServedPops(market, updated, |updated|);
    MatchingKeepsNeeds(market, updated);
  }

  /** Runs one step. The new state is the matching pass applied to the
      updated pops and to freshly rebuilt markets; consistency of the
      directory is kept and every pop's needs stay within bounds. */
  method Step(clock: Clock.GameClock, world: World, jobs: JobMarket, housing: HousingMarket, offsets: seq<Vec2>)
    requires clock.Valid() && Consistent(world)
    requires |offsets| == |world.pops|
    modifies clock, world`pops, world`workplaces, world`houses, jobs, housing
    ensures clock.currentTick == if old(clock.paused) then old(clock.currentTick) else old(clock.currentTick) + 1
    ensures clock.paused == old(clock.paused) && clock.speed == old(clock.speed)
    ensures clock.ticksPerHour == old(clock.ticksPerHour) && clock.hoursPerDay == old(clock.hoursPerDay)
    ensures clock.Valid()
    ensures var env := Surroundings(clock.Hour(), clock.ticksPerHour, old(world.houses), world.restaurants, world.mapSize);
            var updated, market := UpdateAll(old(world.pops), env, offsets), Rebuilt(old(world.workplaces), old(world.houses));
            && world.pops == ServedPops(market, updated, |updated|)
            && MarketOf(world, jobs, housing) == MarketAfter(market, updated, |updated|)
    ensures Consistent(world)
    ensures NeedsBounded(world.pops)
  {
    clock.Tick();
    UpdateAndMatch(clock, world, jobs, housing, offsets);
  }
}
