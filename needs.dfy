/** The per-pop needs and state machine run once per simulation step: passive
    drift of hunger and energy, a level-triggered transition over
    Idle/Working/Eating/Sleeping in a fixed priority, the effects of the state
    the pop ends up in, and a final clamp of the needs. */
module Needs {
  import opened Ints
  import opened Entities
  import opened Reals
  import Clock

  const HUNGER_THRESHOLD: u32 := 7000
  const ENERGY_THRESHOLD: u32 := 2000
  const NEED_MAX: u32 := 10000
  const EAT_RATE: u32 := 20
  const FOOD_COST: i32 := 1
  const SLEEP_RATE: u32 := 10
  const WORKDAY_HOURS: nat := 8
  const WORKDAY_START: real := 9.0
  const WORKDAY_END: real := 17.0
  /** Each random offset component lies in [0, IDLE_SPREAD); the wander target
      is the position moved by the offset minus IDLE_BACK. */
  const IDLE_SPREAD: real := 5.0
  const IDLE_BACK: real := 2.0

  /** What one pass reads besides the pop itself: the clock's hour and rate, the
      houses and restaurants, and the grid size. */
  datatype Surroundings = Surroundings(
    hour: real,
    ticksPerHour: nat,
    houses: seq<House>,
    restaurants: seq<Restaurant>,
    mapSize: TilemapSize)

  predicate ValidSurroundings(env: Surroundings) {
    env.ticksPerHour > 0 && env.mapSize.x >= 1 && env.mapSize.y >= 1
  }

  // ---------------------------------------------------------------- destinations

  function DistanceSquared(a: Vec2, b: Vec2): real {
    (a.x - b.x) * (a.x - b.x) + (a.y - b.y) * (a.y - b.y)
  }

  function RestaurantDistance(from: Vec2, r: Restaurant): real {
    DistanceSquared(from, TileVec(r.position))
  }

  /** `k` is the first restaurant, in iteration order, among those at the least
      squared distance from `from`. */
  predicate IsFirstNearest(from: Vec2, rs: seq<Restaurant>, k: int) {
    && 0 <= k < |rs|
    && (forall j :: 0 <= j < |rs| ==> RestaurantDistance(from, rs[k]) <= RestaurantDistance(from, rs[j]))
    && (forall j :: 0 <= j < k ==> RestaurantDistance(from, rs[k]) < RestaurantDistance(from, rs[j]))
  }

  /** The index `min_by_key` settles on: a later restaurant replaces the best so
      far only when it is strictly nearer. */
  function NearestIndex(from: Vec2, rs: seq<Restaurant>): (k: nat)
    requires |rs| > 0
    ensures IsFirstNearest(from, rs, k)
    decreases |rs|
  {
    if |rs| == 1 then 0
    else
      var init := rs[..|rs| - 1];
      var k := NearestIndex(from, init);
      assert forall j :: 0 <= j < |init| ==> init[j] == rs[j];
      if RestaurantDistance(from, rs[|rs| - 1]) < RestaurantDistance(from, rs[k]) then |rs| - 1 else k
  }

  /** The position of the nearest restaurant, or `None` when there is none. */
  function NearestRestaurant(from: Vec2, rs: seq<Restaurant>): (r: Option<Vec2>)
    ensures r.None? <==> rs == []
    ensures r.Some? ==> exists k :: IsFirstNearest(from, rs, k) && r.value == TileVec(rs[k].position)
  {
    if rs == [] then None else Some(TileVec(rs[NearestIndex(from, rs)].position))
  }

  /** The centre of the pop's house, or `None` when it has no home or the home
      is not in the directory. */
  function HomeDestination(home: Option<Entity>, houses: seq<House>): (r: Option<Vec2>)
    ensures r.Some? ==> home.Some? && exists i :: 0 <= i < |houses| && houses[i].entity == home.value
                                              && r.value == WorldPosition(houses[i].position)
    ensures r.None? ==> home.None? || forall i :: 0 <= i < |houses| ==> houses[i].entity != home.value
  {
    match home
    case None => None
    case Some(h) =>
      match FindHouse(houses, h)
      case None => None
      case Some(i) => Some(WorldPosition(houses[i].position))
  }

  function JobDestination(job: Option<Job>): Option<Vec2> {
    match job
    case None => None
    case Some(j) => Some(WorldPosition(j.position))
  }

  /** The destination a pop is given when it enters a state. */
  function TargetOf(s: PopState, p: Pop, env: Surroundings): Option<Vec2> {
    match s
    case Eating => NearestRestaurant(p.position, env.restaurants)
    case Sleeping => HomeDestination(p.home, env.houses)
    case Working => JobDestination(p.job)
    case Idle => None
  }

  predicate InBounds(v: Vec2, size: TilemapSize)
    requires size.x >= 1 && size.y >= 1
  {
    0.0 <= v.x <= (size.x - 1) as real && 0.0 <= v.y <= (size.y - 1) as real
  }

  predicate ValidOffset(o: Vec2) {
    0.0 <= o.x < IDLE_SPREAD && 0.0 <= o.y < IDLE_SPREAD
  }

  function ClampReal(x: real, lo: real, hi: real): real
    requires lo <= hi
  {
    if x < lo then lo else if hi < x then hi else x
  }

  /** The wander target of an idle pop: its position moved by the random
      offset less 2 on each axis, clamped to the grid. */
  function IdleDestination(pos: Vec2, offset: Vec2, size: TilemapSize): (d: Vec2)
    requires size.x >= 1 && size.y >= 1
    ensures InBounds(d, size)
  {
    Vec2(ClampReal(pos.x + offset.x - IDLE_BACK, 0.0, (size.x - 1) as real),
         ClampReal(pos.y + offset.y - IDLE_BACK, 0.0, (size.y - 1) as real))
  }

  /** A pop on the grid wanders at most 2 back and less than 3 forward on each
      axis, and stays on the grid. */
  lemma IdleDestinationNearby(pos: Vec2, offset: Vec2, size: TilemapSize)
    requires size.x >= 1 && size.y >= 1
    requires InBounds(pos, size) && ValidOffset(offset)
    ensures var d := IdleDestination(pos, offset, size);
            && InBounds(d, size)
            && pos.x - IDLE_BACK <= d.x < pos.x + IDLE_SPREAD - IDLE_BACK
            && pos.y - IDLE_BACK <= d.y < pos.y + IDLE_SPREAD - IDLE_BACK
  {
  }

  // ---------------------------------------------------------------- wages

  /** The per-tick pay of a job: salary over the ticks of an eight-hour
      workday, cast to `i32`. */
  function Wage(salary: real, ticksPerHour: nat): (w: i32)
    requires ticksPerHour > 0
    ensures 0.0 <= salary ==> 0 <= w && w as real * (ticksPerHour * WORKDAY_HOURS) as real <= salary
  {
    var n := (ticksPerHour * WORKDAY_HOURS) as real;
    var w := TruncToI32(salary / n);
    ScaleMonotone(w as real, salary / n, n);
    w
  }

  /** A salary smaller than the ticks of a workday pays nothing per tick. */
  lemma WageBelowOneTickIsZero(salary: real, ticksPerHour: nat)
    requires ticksPerHour > 0
    requires 0.0 <= salary < (ticksPerHour * WORKDAY_HOURS) as real
    ensures Wage(salary, ticksPerHour) == 0
  {
    var n := (ticksPerHour * WORKDAY_HOURS) as real;
    var q := salary / n;
    assert q * n == salary;
    ScaleMonotone(0.0, q, n);
    ScaleMonotone(q, 1.0, n);
    assert 0.0 <= q < 1.0;
  }

  /** In particular the market's salary of 75 pays nothing at the default 60
      ticks per hour. */
  lemma DefaultSalaryPaysNothing()
    ensures Wage(75.0, 60) == 0
  {
    WageBelowOneTickIsZero(75.0, 60);
  }

  // ---------------------------------------------------------------- one pass

  /** Passive drift: hunger up by one and energy down by one, saturating;
      nothing else changes. */
  function Drift(p: Pop): (r: Pop)
    ensures r == p.(hunger := r.hunger, energy := r.energy)
    ensures 1 <= r.hunger && p.hunger <= r.hunger <= p.hunger + 1
    ensures r.hunger == p.hunger ==> p.hunger == U32_MAX
    ensures r.energy <= p.energy <= r.energy + 1
    ensures r.energy == p.energy ==> p.energy == 0
  {
    p.(hunger := SatAddU32(p.hunger, 1), energy := SatSubU32(p.energy, 1))
  }

  predicate InWorkday(hour: real) {
    WORKDAY_START <= hour && hour < WORKDAY_END
  }

  predicate WantsToEat(p: Pop) {
    p.hunger > HUNGER_THRESHOLD && p.state != Eating
  }

  predicate WantsToSleep(p: Pop) {
    p.energy < ENERGY_THRESHOLD && p.state != Sleeping
  }

  predicate StartsWork(p: Pop, hour: real) {
    p.state != Working && InWorkday(hour)
  }

  predicate EndsWork(p: Pop, hour: real) {
    p.state == Working && !InWorkday(hour)
  }

  /** The transition table, highest priority first. It changes only the
      state and the destination; `TransitionPriority` and
      `TransitionResetsDestination` state the rest. */
  function Transition(p: Pop, env: Surroundings): (t: Pop)
    ensures t == p.(state := t.state, destination := t.destination)
  {
    if WantsToEat(p) then p.(state := Eating, destination := TargetOf(Eating, p, env))
    else if WantsToSleep(p) then p.(state := Sleeping, destination := TargetOf(Sleeping, p, env))
    else if StartsWork(p, env.hour) then p.(state := Working, destination := TargetOf(Working, p, env))
    else if EndsWork(p, env.hour) then p.(state := Idle, destination := TargetOf(Idle, p, env))
    else p
  }

  /** The effect of the state the pop is in after the transition. It never
      touches identity, job, home or position; it can only end a state into
      Idle without destination; it sets a destination only as the wander
      target of an idle pop without one; and money moves only by a meal or a
      wage. */
  function Effects(p: Pop, env: Surroundings, offset: Vec2): (r: Pop)
    requires ValidSurroundings(env)
    ensures r.entity == p.entity && r.job == p.job && r.home == p.home && r.position == p.position
    ensures r.state != p.state ==> r.state == Idle && r.destination == None
    ensures r.destination != p.destination ==>
              || (r.state == Idle && r.destination == None)
              || (p.state == Idle && p.destination == None
                  && r.destination == Some(IdleDestination(p.position, offset, env.mapSize)))
    ensures r.money != p.money ==>
              || (p.state == Eating && r.money == SatSubI32(p.money, FOOD_COST))
              || (p.state == Working && p.job.Some?
                  && r.money == SatAddI32(p.money, Wage(p.job.value.salary, env.ticksPerHour)))
  {
    match p.state
    case Eating =>
      if p.hunger > 0 then
        p.(hunger := SatSubU32(p.hunger, EAT_RATE), money := SatSubI32(p.money, FOOD_COST))
      else
        p.(state := Idle, destination := None)
    case Sleeping =>
      var rested := p.(energy := SatAddU32(p.energy, SLEEP_RATE));
      var woken := if rested.energy >= NEED_MAX then rested.(state := Idle, destination := None) else rested;
      woken.(hunger := SatAddU32(woken.hunger, 1))
    case Working =>
      if p.job.Some? then
        p.(money := SatAddI32(p.money, Wage(p.job.value.salary, env.ticksPerHour)), energy := SatSubU32(p.energy, 1))
      else
        p
    case Idle =>
      var aimed := if p.destination.None? then p.(destination := Some(IdleDestination(p.position, offset, env.mapSize))) else p;
      aimed.(energy := SatSubU32(aimed.energy, 1), hunger := SatAddU32(aimed.hunger, 1))
  }

  /** Brings hunger and energy down to the maximum; a need within it is kept
      and nothing else changes. */
  function ClampNeeds(p: Pop): (r: Pop)
    ensures r == p.(hunger := r.hunger, energy := r.energy)
    ensures r.hunger == if p.hunger <= NEED_MAX then p.hunger else NEED_MAX
    ensures r.energy == if p.energy <= NEED_MAX then p.energy else NEED_MAX
  {
    p.(hunger := Min(p.hunger, NEED_MAX), energy := Min(p.energy, NEED_MAX))
  }

  /** One pass over one pop. Hunger and energy end within their maximum; the
      pass never touches the pop's identity, job, home or position. */
  function UpdatePop(p: Pop, env: Surroundings, offset: Vec2): (r: Pop)
    requires ValidSurroundings(env)
    ensures r.hunger <= NEED_MAX && r.energy <= NEED_MAX
    ensures r.entity == p.entity && r.job == p.job && r.home == p.home && r.position == p.position
  {
    ClampNeeds(Effects(Transition(Drift(p), env), env, offset))
  }

  // ---------------------------------------------------------------- properties

  /** The transition is level-triggered: it changes only the state and the
      destination; a pop whose state is kept is left as it was, and a pop that
      enters a state gets that state's target as destination. */
  lemma TransitionResetsDestination(p: Pop, env: Surroundings)
    ensures var t := Transition(p, env);
            && t == p.(state := t.state, destination := t.destination)
            && (t.state == p.state ==> t == p)
            && (t.state != p.state ==> t.destination == TargetOf(t.state, p, env))
  {
  }

  /** The priority of the transition table. */
  lemma TransitionPriority(p: Pop, env: Surroundings)
    ensures WantsToEat(p) ==> Transition(p, env).state == Eating
    ensures !WantsToEat(p) && WantsToSleep(p) ==> Transition(p, env).state == Sleeping
    ensures !WantsToEat(p) && !WantsToSleep(p) && StartsWork(p, env.hour) ==> Transition(p, env).state == Working
    ensures !WantsToEat(p) && !WantsToSleep(p) && EndsWork(p, env.hour) ==> Transition(p, env).state == Idle
    ensures (!WantsToEat(p) && !WantsToSleep(p) && !StartsWork(p, env.hour) && !EndsWork(p, env.hour))
              ==> Transition(p, env) == p
  {
  }

  /** A pop whose hunger passes the threshold and that is not already eating
      ends the pass eating, bound for the nearest restaurant, 20 less hungry and
      1 poorer. */
  lemma HungryPopEats(p: Pop, env: Surroundings, offset: Vec2)
    requires ValidSurroundings(env)
    requires WantsToEat(Drift(p))
    ensures var r := UpdatePop(p, env, offset);
            && r.state == Eating
            && r.destination == NearestRestaurant(p.position, env.restaurants)
            && r.hunger == Min(Drift(p).hunger - EAT_RATE, NEED_MAX)
            && r.money == SatSubI32(p.money, FOOD_COST)
            && r.energy == Min(Drift(p).energy, NEED_MAX)
  {
  }

  /** A tired pop that is not about to eat ends the pass asleep, bound for
      home, with 10 more energy. */
  lemma TiredPopSleeps(p: Pop, env: Surroundings, offset: Vec2)
    requires ValidSurroundings(env)
    requires !WantsToEat(Drift(p)) && WantsToSleep(Drift(p))
    ensures var r := UpdatePop(p, env, offset);
            && r.state == Sleeping
            && r.destination == HomeDestination(p.home, env.houses)
            && r.energy == Drift(p).energy + SLEEP_RATE
            && r.hunger == Min(SatAddU32(Drift(p).hunger, 1), NEED_MAX)
            && r.money == p.money
  {
  }

  /** Inside the workday a pop that is neither hungry nor tired starts work,
      bound for its job; a jobless worker's needs and money only drift. */
  lemma WorkdayStartsWork(p: Pop, env: Surroundings, offset: Vec2)
    requires ValidSurroundings(env)
    requires !WantsToEat(Drift(p)) && !WantsToSleep(Drift(p)) && StartsWork(Drift(p), env.hour)
    ensures var r := UpdatePop(p, env, offset);
            && r.state == Working
            && r.destination == JobDestination(p.job)
            && (p.job.None? ==> r.money == p.money && r.energy == Min(Drift(p).energy, NEED_MAX))
            && (p.job.Some? ==>
                  && r.money == SatAddI32(p.money, Wage(p.job.value.salary, env.ticksPerHour))
                  && r.energy == Min(SatSubU32(Drift(p).energy, 1), NEED_MAX))
  {
  }

  /** Outside the workday a worker becomes idle, and in the same pass the idle
      effect gives it a wander target. */
  lemma WorkdayEndSendsIdle(p: Pop, env: Surroundings, offset: Vec2)
    requires ValidSurroundings(env)
    requires !WantsToEat(Drift(p)) && !WantsToSleep(Drift(p)) && EndsWork(Drift(p), env.hour)
    ensures var r := UpdatePop(p, env, offset);
            && r.state == Idle
            && r.destination == Some(IdleDestination(p.position, offset, env.mapSize))
  {
  }

  /** Eating never ends through its own effect: after the drift hunger is at
      least 1, so the effect's "hunger is 0" branch cannot be taken. */
  lemma EatingNeverStopsItself(p: Pop, env: Surroundings, offset: Vec2)
    requires ValidSurroundings(env)
    ensures Transition(Drift(p), env).state == Eating ==> UpdatePop(p, env, offset).state == Eating
  {
  }

  /** Every pass of an eating pop, whether it just started or was already
      eating: 20 less hunger and 1 less money, the destination kept. */
  lemma EatingPassEffect(p: Pop, env: Surroundings, offset: Vec2)
    requires ValidSurroundings(env)
    requires Transition(Drift(p), env).state == Eating
    ensures var t, r := Transition(Drift(p), env), UpdatePop(p, env, offset);
            && r.state == Eating
            && r.destination == t.destination
            && r.hunger == Min(SatSubU32(Drift(p).hunger, EAT_RATE), NEED_MAX)
            && r.energy == Min(Drift(p).energy, NEED_MAX)
            && r.money == SatSubI32(p.money, FOOD_COST)
  {
  }

  /** A sleeping pop gains 10 energy and 1 hunger each pass, and wakes, idle
      and without destination, exactly when its energy reaches the
      maximum. */
  lemma SleepEndsAtFullEnergy(p: Pop, env: Surroundings, offset: Vec2)
    requires ValidSurroundings(env)
    requires Transition(Drift(p), env).state == Sleeping
    ensures var t, r := Transition(Drift(p), env), UpdatePop(p, env, offset);
            && (r.state == Idle <==> SatAddU32(Drift(p).energy, SLEEP_RATE) >= NEED_MAX)
            && (r.state == Idle ==> r.destination == None)
            && (r.state != Idle ==> r.state == Sleeping && r.destination == t.destination)
            && r.energy == Min(SatAddU32(Drift(p).energy, SLEEP_RATE), NEED_MAX)
            && r.hunger == Min(SatAddU32(Drift(p).hunger, 1), NEED_MAX)
            && r.money == p.money
  {
  }

  /** Every pass of a working pop: a pop with a job earns the wage and tires
      by one more; a jobless worker's needs and money only drift. */
  lemma WorkingPassEffect(p: Pop, env: Surroundings, offset: Vec2)
    requires ValidSurroundings(env)
    requires Transition(Drift(p), env).state == Working
    ensures var t, r := Transition(Drift(p), env), UpdatePop(p, env, offset);
            && r.state == Working
            && r.destination == t.destination
            && r.hunger == Min(Drift(p).hunger, NEED_MAX)
            && (p.job.None? ==> r.money == p.money && r.energy == Min(Drift(p).energy, NEED_MAX))
            && (p.job.Some? ==>
                  && r.money == SatAddI32(p.money, Wage(p.job.value.salary, env.ticksPerHour))
                  && r.energy == Min(SatSubU32(Drift(p).energy, 1), NEED_MAX))
  {
  }

  /** An idle pop always ends the pass with a destination: the one it had, or
      a new wander target on the grid when it had none; it loses one more
      energy and gains one more hunger. */
  lemma IdlePopHasDestination(p: Pop, env: Surroundings, offset: Vec2)
    requires ValidSurroundings(env)
    requires Transition(Drift(p), env).state == Idle
    ensures var t, r := Transition(Drift(p), env), UpdatePop(p, env, offset);
            && r.state == Idle
            && r.destination.Some?
            && (t.destination.Some? ==> r.destination == t.destination)
            && (t.destination.None? ==> r.destination == Some(IdleDestination(p.position, offset, env.mapSize)))
            && r.energy == Min(SatSubU32(Drift(p).energy, 1), NEED_MAX)
            && r.hunger == Min(SatAddU32(Drift(p).hunger, 1), NEED_MAX)
            && r.money == p.money
  {
  }

  /** Money moves only by a meal (one less) or a wage. */
  lemma MoneyMovesByMealsAndWages(p: Pop, env: Surroundings, offset: Vec2)
    requires ValidSurroundings(env)
    ensures var m := UpdatePop(p, env, offset).money;
            || m == p.money
            || m == SatSubI32(p.money, FOOD_COST)
            || (p.job.Some? && m == SatAddI32(p.money, Wage(p.job.value.salary, env.ticksPerHour)))
  {
  }

  /** With the default 60 ticks per hour and the market's salary, work pays
      nothing per tick, so a pass never makes a pop richer. */
  lemma DefaultClockNeverPays(p: Pop, env: Surroundings, offset: Vec2)
    requires ValidSurroundings(env) && env.ticksPerHour == 60
    requires p.job.Some? ==> 0.0 <= p.job.value.salary <= 75.0
    ensures UpdatePop(p, env, offset).money <= p.money
  {
    MoneyMovesByMealsAndWages(p, env, offset);
    if p.job.Some? {
      WageBelowOneTickIsZero(p.job.value.salary, 60);
    }
  }

  // ---------------------------------------------------------------- the system

  function SurroundingsOf(clock: Clock.GameClock, world: World): Surroundings
    reads clock, world
    requires clock.Valid()
  {
    Surroundings(clock.Hour(), clock.ticksPerHour, world.houses, world.restaurants, world.mapSize)
  }

  predicate NeedsBounded(pops: seq<Pop>) {
    forall k :: 0 <= k < |pops| ==> pops[k].hunger <= NEED_MAX && pops[k].energy <= NEED_MAX
  }

  /** The pops after one needs pass: each one updated on its own, from the
      same surroundings, with its own random offset. */
  function UpdateAll(pops: seq<Pop>, env: Surroundings, offsets: seq<Vec2>): (r: seq<Pop>)
    requires ValidSurroundings(env) && |offsets| == |pops|
    ensures |r| == |pops|
    ensures forall k :: 0 <= k < |pops| ==> r[k] == UpdatePop(pops[k], env, offsets[k])
    ensures NeedsBounded(r)
  {
    if pops == [] then []
    else UpdateAll(pops[..|pops| - 1], env, offsets[..|pops| - 1]) + [UpdatePop(pops[|pops| - 1], env, offsets[|pops| - 1])]
  }

  /** One pass of the needs engine over every pop, in iteration order, each
      with its own random offset. Every pop is updated independently, from the
      same hour and directory, and ends with bounded needs. */
  method UpdatePops(world: World, clock: Clock.GameClock, offsets: seq<Vec2>)
    requires world.Valid() && clock.Valid()
    requires |offsets| == |world.pops|
    modifies world`pops
    ensures world.pops == UpdateAll(old(world.pops), old(SurroundingsOf(clock, world)), offsets)
    ensures world.Valid()
  {
    var env := SurroundingsOf(clock, world);
    var i := 0;
    while i < |world.pops|
      invariant 0 <= i <= |world.pops| == |old(world.pops)|
      invariant forall k :: 0 <= k < i ==> world.pops[k] == UpdatePop(old(world.pops[k]), env, offsets[k])
      invariant forall k :: i <= k < |world.pops| ==> world.pops[k] == old(world.pops[k])
    {
      world.pops := world.pops[i := UpdatePop(world.pops[i], env, offsets[i])];
      i := i + 1;
    }
    assert world.pops == UpdateAll(old(world.pops), env, offsets);
  }
}
