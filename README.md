# backpop simulation core in Dafny

This project models the fixed-step simulation of backpop, a small Bevy
city game (`src/tilemap.rs`), and proves what each system of one step does.
The step runs the systems in this order:

1. the **game clock** ticks (`GameClock`);
2. every **pop** goes through its needs and state machine (`update_pops`,
   with `find_nearest_restaurant`);
3. the **job and housing markets** are cleared and rebuilt from the
   workplaces and houses that have room (`manage_markets`);
4. a **greedy matcher** gives each pop without a job (home) the last
   remaining offer (`assign_jobs_and_housing`).

Modules:

- `Ints` (ints.dfy) holds Rust's `u32`/`i32` as ranges of `int`, with the
  saturating operations and the `as i32` casts written out.
- `Reals` (reals.dfy) holds one fact about scaling a real inequality by a
  positive factor, shared by the clock's hour and the wage.
- `Clock` (clock.dfy) is the `GameClock` class: `Tick`, `TogglePause`,
  `Day`, `Hour` and the Z/X/Space key rules.
- `Entities` (entities.dfy) holds the component records. The ECS tables
  become the `World` class: one `seq` per table, in iteration order, with
  lookups by entity.
- `Needs` (needs.dfy) is `update_pops`. Each pop's pass is the pure
  function `UpdatePop`, built as drift, then transition, then effects, then
  clamp. The system itself is the loop method `UpdatePops`.
- `Markets` (markets.dfy) is `manage_markets` (`ManageMarkets`) and
  `assign_jobs_and_housing` (`AssignJobsAndHousing`).
  - Both are loops over the directory and the two market resources.
  - The matcher is specified by a fold of a `Market` value over the pops
    (`MarketAfter`, `ServedPops`).
  - The greedy rule, conservation and capacity properties are proved about
    that fold.
- `Simulation` (simulation.dfy) runs the four systems in order (`Step`,
  with the pop and market systems in `UpdateAndMatch`). It proves that the step keeps every workplace and house within capacity and
  every pop's needs within bounds.

Modelling choices:

- Timing: the tick counter is a `nat`. The hour is an exact `real`, and
  `WorkdayWindowOnTicks` shows that the test `9.0 <= hour < 17.0` is the
  integer test `9*tph <= tick % (tph*hpd) < 17*tph`.
- Positions and salaries: both are exact reals. The centre of a tile is
  `x*16 + 8`. The restaurant search reads a tile coordinate without scaling,
  as the code does (src/tilemap.rs:377, 380). The idle wander target is
  also in tile units: it is clamped to `[0, size - 1]` on each axis
  (src/tilemap.rs:465-466). Home and job targets are tile centres in pixel
  units. So a pop that goes to eat or to wander heads for a point in tile
  units, while a pop that goes home or to work heads for a point in pixel
  units. The model keeps this inconsistency as written.
- The random idle offset is a parameter: one offset per pop, used only when
  an idle pop has no destination.
- A failed entity lookup is modelled as a lookup that changes nothing:
  `FindWorkplace` / `FindHouse` return `None`. This covers the matcher's
  `if let Ok(..) = ..get_mut(..)` and the `get(home).ok()` of the sleep
  target.
- `update_pops`'s Eating effect has a branch for hunger 0. The drift makes
  hunger at least 1 first, so that branch cannot be taken.
  `EatingNeverStopsItself` proves this.
- The schedule tuple in `TilePlugin::build` is not `.chain()`ed, so Bevy is
  free to run those systems in another order. The model uses the listed
  order.

## Model

| member | source | states |
|---|---|---|
| Ints.SatAddU32 | src/tilemap.rs:413 | `u32::saturating_add`: exact when it fits, `u32::MAX` otherwise, never wraps |
| Ints.SatSubU32 | src/tilemap.rs:414 | `u32::saturating_sub`: exact when it is non-negative, 0 otherwise |
| Ints.SatMulU32 | src/tilemap.rs:613 | `u32::saturating_mul`: exact when it fits, `u32::MAX` otherwise |
| Ints.SatAddI32 | src/tilemap.rs:453 | `i32::saturating_add`: exact inside the `i32` range, else the nearer bound |
| Ints.SatSubI32 | src/tilemap.rs:436 | `i32::saturating_sub`: exact inside the `i32` range, else the nearer bound |
| Ints.AsI32 | src/tilemap.rs:588 | the integer cast `as i32`: congruent to the input modulo 2^32, identity on the `i32` range |
| Ints.TruncToI32 | src/tilemap.rs:453 | the float cast `as i32`: truncates toward zero (lands within 1 of the input, on the side of 0), saturates at the `i32` bounds |
| Clock.Halved | src/tilemap.rs:609 | Z: the speed halved, rounded down, but at least 1 |
| Clock.Doubled | src/tilemap.rs:613 | X: the speed doubled when that is at most 512, else exactly 512 |
| Clock.SpeedKeysStayInRange | src/tilemap.rs:607-614 | a speed in [1, 512] stays in [1, 512] under Z and X; Z never raises it and X never lowers it |
| Clock.HalvedDoubledRoundTrip | src/tilemap.rs:607-614 | halving undoes a doubling below the ceiling; doubling undoes the halving of an even speed |
| Clock.GameClock.constructor | src/tilemap.rs:141-151 | the default clock: tick 0, 60 ticks per hour, 24 hours per day, speed 1, running |
| Clock.GameClock.Tick | src/tilemap.rs:154-158 | the tick grows by exactly 1 when running and stays the same when paused; no other field changes |
| Clock.GameClock.TogglePause | src/tilemap.rs:169-171 | flips `paused` and changes nothing else |
| Clock.GameClock.TicksPerDay | src/tilemap.rs:161 | the day length in ticks is positive and at least each of its factors |
| Clock.GameClock.Day | src/tilemap.rs:160-162 | the day counts from 1, and the current tick lies in that day's span of ticks (`tick / ticksPerDay + 1`) |
| Clock.GameClock.TickOfDay | src/tilemap.rs:165 | the tick within the day is below the day length and, with the day, rebuilds the tick |
| Clock.GameClock.Hour | src/tilemap.rs:164-167 | the hour lies in [0, hoursPerDay) and is the tick of day measured in hours |
| Clock.GameClock.HandleSpeedInput | src/tilemap.rs:602-618 | Z halves and X doubles, both from the frame's starting speed, so X wins; Space toggles the pause; the tick is untouched |
| Clock.WorkdayWindowOnTicks | src/tilemap.rs:423 | `9.0 <= hour() < 17.0` holds exactly when `9*tph <= tick of day < 17*tph` |
| Clock.ToggleTwiceRestores | src/tilemap.rs:169-171 | toggling the pause twice restores `paused` and leaves the tick alone |
| Clock.DefaultClockAfter1500Ticks | src/tilemap.rs:141-167 | a default clock after 1500 running ticks is on day 2 at hour 1.0 |
| Entities.World.constructor | src/tilemap.rs:44-90 | a directory built from tables with unique entities on a grid of at least 1 by 1 is `Valid`, holding exactly the given tables |
| Entities.FindWorkplace | src/tilemap.rs:545 | the lookup by entity finds the first workplace with that entity, or reports that none has it |
| Entities.FindHouse | src/tilemap.rs:560 | the lookup by entity finds the first house with that entity, or reports that none has it |
| Needs.NearestIndex | src/tilemap.rs:374-379 | `min_by_key` on the squared distance: a restaurant no farther than any other, with every earlier restaurant strictly farther (the first minimum) |
| Needs.NearestRestaurant | src/tilemap.rs:370-381 | `None` exactly when there are no restaurants; otherwise the unscaled position of the first nearest one |
| Needs.HomeDestination | src/tilemap.rs:422 | the centre of the pop's house when it has a home that is in the directory, `None` otherwise |
| Needs.IdleDestination | src/tilemap.rs:464-467 | the wander target always lies on the grid |
| Needs.IdleDestinationNearby | src/tilemap.rs:460-467 | for a pop whose position is on the grid and an offset in [0, 5), the target is on the grid, at most 2 back and less than 3 ahead on each axis |
| Needs.Wage | src/tilemap.rs:453 | the per-tick wage `(salary / (tph * 8)) as i32`: for a non-negative salary it is non-negative and a full 8-hour day of it never exceeds the salary |
| Needs.WageBelowOneTickIsZero | src/tilemap.rs:453 | a salary below the number of ticks in 8 hours pays 0 per tick after the `as i32` truncation |
| Needs.DefaultSalaryPaysNothing | src/tilemap.rs:590 | salary 75 at 60 ticks per hour pays 0 per tick |
| Needs.Drift | src/tilemap.rs:413-414 | only hunger and energy change: hunger rises by exactly 1 unless it is at `u32::MAX`, energy falls by exactly 1 unless it is 0 |
| Needs.Transition | src/tilemap.rs:417-429 | only state and destination change; the order of the tests is stated by `TransitionPriority` and the destinations by `TransitionResetsDestination` |
| Needs.Effects | src/tilemap.rs:432-473 | identity, job, home and position are untouched; a state change is only to Idle with no destination; a destination change is a reset or the wander target of an idle pop that had none; money changes only by the meal cost (Eating) or the job's wage (Working with a job) |
| Needs.ClampNeeds | src/tilemap.rs:476-477 | hunger and energy become `min(value, 10000)`; nothing else changes |
| Needs.UpdatePop | src/tilemap.rs:411-478 | after a pass hunger and energy are at most 10000; identity, job, home and position are untouched |
| Needs.TransitionResetsDestination | src/tilemap.rs:417-429 | the transition changes only state and destination; a kept state changes nothing; a new state sets that state's destination |
| Needs.TransitionPriority | src/tilemap.rs:417-429 | hungry beats tired beats workday start beats workday end, and with none of them the pop is unchanged |
| Needs.HungryPopEats | src/tilemap.rs:413-436 | a pop hungrier than 7000 that is not eating ends up Eating, aimed at the nearest restaurant, 20 less hungry and 1 poorer |
| Needs.TiredPopSleeps | src/tilemap.rs:413-450 | a tired pop that does not start eating ends up Sleeping, aimed at its home, with 10 more energy and one more hunger |
| Needs.WorkdayStartsWork | src/tilemap.rs:423-456 | inside the workday a rested, fed pop ends up Working, aimed at its job; only a pop with a job is paid and tires |
| Needs.WorkdayEndSendsIdle | src/tilemap.rs:426-467 | outside the workday a worker ends up Idle with a fresh wander target |
| Needs.EatingNeverStopsItself | src/tilemap.rs:433-440 | a pop that is Eating after the transition is still Eating after the pass (the hunger-0 branch is dead) |
| Needs.EatingPassEffect | src/tilemap.rs:432-441 | every pass of an eating pop, new or continuing: it stays Eating with its destination, 20 less hungry (saturating) and 1 poorer |
| Needs.SleepEndsAtFullEnergy | src/tilemap.rs:442-450 | every pass of a sleeping pop adds 10 energy and 1 hunger, leaves money alone, and wakes it, idle and without destination, exactly when energy reaches 10000; otherwise it keeps sleeping and its destination |
| Needs.WorkingPassEffect | src/tilemap.rs:451-456 | every pass of a working pop keeps it Working with its destination; with a job it earns the wage and loses one more energy, without one only the drift applies |
| Needs.IdlePopHasDestination | src/tilemap.rs:457-472 | an idle pop ends with a destination: the one it had, or a new wander target when it had none; it loses one more energy and gains one more hunger; its money is unchanged |
| Needs.MoneyMovesByMealsAndWages | src/tilemap.rs:432-456 | money changes only by a meal (minus 1) or by the job's wage |
| Needs.DefaultClockNeverPays | src/tilemap.rs:451-456 | at 60 ticks per hour with salaries up to 75, a pass never makes a pop richer |
| Needs.UpdateAll | src/tilemap.rs:411-478 | every pop is updated on its own from the same surroundings, and every pop ends with bounded needs |
| Needs.UpdatePops | src/tilemap.rs:402-479 | the system's loop leaves the pops equal to `UpdateAll` of the old pops, the clock's hour and the directory, and keeps the directory `Valid` |
| Markets.JobMarket.constructor | src/tilemap.rs:568-571 | the job market starts empty |
| Markets.HousingMarket.constructor | src/tilemap.rs:573-576 | the housing market starts empty |
| Markets.OpenJobs | src/tilemap.rs:586-592 | the rebuilt job list has no more offers than there are workplaces, each at salary 75 |
| Markets.OpenHouses | src/tilemap.rs:594-599 | the rebuilt house list has no more offers than there are houses |
| Markets.OpenJobsExactly | src/tilemap.rs:587-591 | an offer is in the job list if and only if it comes from a workplace with fewer employees than its capacity (`HasOpening`) |
| Markets.OpenHousesExactly | src/tilemap.rs:595-598 | an offer is in the house list if and only if it comes from a house with fewer residents than its capacity (`HasVacancy`, the test at line 596) |
| Markets.OpenJobsConcat | src/tilemap.rs:587-591 | the job list follows iteration order: earlier workplaces' offers come first |
| Markets.OpenHousesConcat | src/tilemap.rs:595-598 | the house list follows iteration order |
| Markets.OpenJobsListOnce | src/tilemap.rs:587-591 | with unique entities each workplace is offered once if it has an opening and not at all otherwise |
| Markets.OpenHousesListOnce | src/tilemap.rs:595-598 | with unique entities each house is offered once if it has a vacancy and not at all otherwise |
| Markets.ManageMarkets | src/tilemap.rs:580-600 | both lists are replaced by the rebuild of the current directory, so the old contents play no part and a second run gives the same lists |
| Markets.HasOpeningAsWritten | src/tilemap.rs:588-589 | the test as written never offers a full workplace: with no more employees than capacity it implies `HasOpening` |
| Markets.AsWrittenMissesLargeWorkplace | src/tilemap.rs:588-589 | the opening test as written rejects an empty workplace of capacity 2^31 |
| Markets.AsWrittenAgreesBelowI32Max | src/tilemap.rs:588-589 | below 2^31 the test as written and `employees < capacity` agree |
| Markets.WithJob | src/tilemap.rs:537-543 | a jobless pop gets the last offer's job when there is one; nothing else about the pop changes |
| Markets.WithHome | src/tilemap.rs:552-558 | a homeless pop gets the last house offer as home and its centre as destination; nothing else changes |
| Markets.TakeJobPops | src/tilemap.rs:537-548 | the job half of a turn (`TakeJob`): a jobless pop facing offers pops exactly the last one, otherwise the market is unchanged; houses and house offers are never touched |
| Markets.TakeHomePops | src/tilemap.rs:552-563 | the home half of a turn (`TakeHome`): a homeless pop facing offers pops exactly the last one, otherwise the market is unchanged; workplaces and job offers are never touched |
| Markets.TakeJobHires | src/tilemap.rs:538-547 | taking the last offer appends the pop to the employees of the workplace it names and leaves every other workplace as it was |
| Markets.TakeHomeMovesIn | src/tilemap.rs:553-562 | taking the last house offer appends the pop to the residents of the house it names and leaves every other house as it was |
| Markets.ServeHalves | src/tilemap.rs:535-565 | a whole turn (`Serve`) takes its workplaces and job offers from the job half alone and its houses and house offers from the home half alone |
| Markets.Served | src/tilemap.rs:535-565 | a pop's whole turn keeps any job and home it had, sets a missing one from the last offer, and changes the destination only together with the home |
| Markets.MarketAfter | src/tilemap.rs:535-565 | the turns keep the number of workplaces and houses |
| Markets.ServedPops | src/tilemap.rs:535-565 | the pop at index j is served at the market the j pops before it left behind |
| Markets.MarketAfterDrainsJobs | src/tilemap.rs:538 | after n turns the job list has lost one offer from its end per jobless pop, down to empty |
| Markets.MarketAfterDrainsHomes | src/tilemap.rs:553 | after n turns the house list has lost one offer from its end per homeless pop, down to empty |
| Markets.ServedAfterOthersJob | src/tilemap.rs:537-543 | after `rank` offers are gone, a jobless pop gets the offer `rank` places from the end, or none |
| Markets.ServedAfterOthersHome | src/tilemap.rs:552-558 | after `rank` house offers are gone, a homeless pop gets the one `rank` places from the end, or none |
| Markets.TakesOfferFromEndJob | src/tilemap.rs:535-549 | the greedy rule: the k-th jobless pop takes the k-th offer from the end, and stays jobless once the list is empty |
| Markets.TakesOfferFromEndHome | src/tilemap.rs:535-564 | the same for homes, and the pop also heads for its new home |
| Markets.ServeGrowsSite | src/tilemap.rs:545-562 | one turn only appends to employee and resident lists |
| Markets.MarketAfterGrowsFrom | src/tilemap.rs:535-565 | between any two points of the pass each workplace and house keeps its entity, capacity and position, and its list only grows at the end |
| Markets.MarketAfterSite | src/tilemap.rs:535-565 | matching keeps each workplace's and house's entity, capacity and position and only extends its list |
| Markets.MarketAfterSites | src/tilemap.rs:535-565 | the same for all workplaces and houses at once |
| Markets.SameWorkplaceLookup | src/tilemap.rs:545 | a lookup by entity that succeeds on a table succeeds at the same index on any grown copy of it |
| Markets.SameHouseLookup | src/tilemap.rs:560 | the same for houses |
| Markets.LookupsAfter | src/tilemap.rs:545-560 | the turns before any pop keep every successful lookup by entity at the same index |
| Markets.TurnJoinsWorkplace | src/tilemap.rs:537-547 | in its own turn, a jobless pop whose offer is still in the list joins the employees of the workplace that offer names |
| Markets.TurnMovesIntoHouse | src/tilemap.rs:552-562 | in its own turn, a homeless pop whose house offer is still in the list joins the residents of the house it names |
| Markets.JoinsWorkplace | src/tilemap.rs:535-549 | the greedy rule on the directory: the jobless pop with `rank` jobless pops before it, when `rank` is below the number of offers, ends the pass among the employees of the workplace named by the offer `rank` places from the end |
| Markets.MovesIntoHouse | src/tilemap.rs:535-564 | the same for homes: it ends the pass among the residents of the house named by the house offer `rank` places from the end |
| Markets.MarketAfterUnique | src/tilemap.rs:535-565 | matching keeps entities unique |
| Markets.TakeJobConserves | src/tilemap.rs:538-547 | taking a job moves one offer of a workplace into its employees: employees plus outstanding offers is unchanged |
| Markets.TakeHomeConserves | src/tilemap.rs:553-562 | taking a home moves one offer of a house into its residents |
| Markets.ServeConserves | src/tilemap.rs:535-565 | one turn conserves employees plus offers and residents plus offers for every site |
| Markets.MarketAfterConserves | src/tilemap.rs:535-565 | the whole pass conserves employees plus offers per workplace and residents plus offers per house |
| Markets.AssignRespectsCapacity | src/tilemap.rs:535-565 | a pass that starts with room for every outstanding offer leaves no workplace or house over capacity |
| Markets.RebuildThenAssignRespectsCapacity | src/tilemap.rs:527-600 | a rebuild followed by the matching pass keeps every workplace and house within capacity |
| Markets.AssignJobsAndHousing | src/tilemap.rs:527-566 | the system's loop leaves the pops equal to `ServedPops` and the directory and markets equal to `MarketAfter` of the starting state, and keeps the directory `Valid` |
| Markets.ServedPopsStep | src/tilemap.rs:535 | serving pop i of a list with i pops served extends the served prefix by one |
| Markets.ServeNext | src/tilemap.rs:535-565 | one iteration takes the state after i turns to the state after i + 1 |
| Markets.ServeOne | src/tilemap.rs:535-565 | pop i's turn updates the market by `Serve` and the pop by `Served` |
| Markets.HomeHalfReadsOriginal | src/tilemap.rs:552-553 | the home half depends only on the pop's entity and home, which the job half does not touch |
| Markets.AssignJob | src/tilemap.rs:537-549 | a jobless pop pops the last offer, takes its job and joins that workplace's employees |
| Markets.AssignHome | src/tilemap.rs:552-564 | a homeless pop pops the last house offer, takes it as home and destination and joins its residents |
| Simulation.MatchingKeepsNeeds | src/tilemap.rs:535-565 | matching leaves needs alone, so pops whose needs are bounded still have bounded needs afterwards |
| Simulation.RebuildAndMatch | src/tilemap.rs:527-600 | `manage_markets` then `assign_jobs_and_housing`: the pops and the market are the matching pass over the rebuilt market, and the directory stays consistent and within capacity |
| Simulation.UpdateAndMatch | src/tilemap.rs:402-600 | `update_pops`, then the market systems, against the ticked clock: the new state is the matching pass over the updated pops; needs stay bounded and the directory consistent |
| Simulation.Step | src/tilemap.rs:28-34 | one step: the clock ticks, the pops are updated, the markets are rebuilt and matched; the directory stays consistent and within capacity, and needs stay bounded |

## Findings

| source | as written | input that shows it | evidently intended | confidence | as-written member | corrected member |
|---|---|---|---|---|---|---|
| src/tilemap.rs:588-589 | `workplace.capacity as i32 - workplace.employees.len() as i32 > 0` | a workplace with capacity 2147483648 (2^31) and no employees: the cast makes the capacity -2^31, so the workplace is never offered. With at least one employee the subtraction overflows `i32`. A debug build panics there. A release build wraps, which the model follows, and then offers the workplace | a workplace has an opening when it has fewer employees than its capacity, as the house test at line 596 says | not executed | Markets.AsWrittenMissesLargeWorkplace | Markets.OpenJobsExactly |

`Markets.HasOpeningAsWritten` is the opening test as written.
`Markets.HasOpening` is the corrected test, and the rebuild (`OpenJobs`,
`ManageMarkets`) uses it. The two agree for capacities and employee counts
below 2^31 (`Markets.AsWrittenAgreesBelowI32Max`).

## Left out

- `move_pops` (src/tilemap.rs:214-240) and its property test: it is f32 vector arithmetic (`length`, `normalize`, `clamp`). Positions change only through it, so in the model a pop's position stays fixed. It also clears the destination when a pop arrives (src/tilemap.rs:228), so in the model an idle pop keeps its first wander target for good instead of picking a new one after each arrival.
- f32 and f64 rounding: salaries, hours and positions are exact reals, and a real is used wherever the code converts to float.
- Overflow of the u64 tick counter and of `ticks_per_hour * 8` or `ticks_per_hour * hours_per_day`: the model's counters are unbounded. With the default clock these overflows are unreachable.
- `ticks_per_second` and `update_fixed_time`: they pass a float rate to the engine's fixed timestep and decide nothing in the model.
- A zero-sized map: `map_size.x - 1` and `map_size.y - 1` (src/tilemap.rs:465-466) are `u32` subtractions that underflow before the `as f32` cast when a side is 0. A debug build panics there and a release build wraps to `u32::MAX`. `World.Valid` requires a grid of at least 1 by 1, so the model never reaches that case.
- `spawn_tilemap`, the `spawn_*` helpers, `update_pop_visuals`, `render_pops` and src/ui.rs (including `handle_speed_buttons`): they do asset loading, random map generation, rendering and UI.
- The distribution of `rand::random`: the idle offsets are inputs to `UpdatePops` and `Step`. `IdleDestinationNearby` covers offsets in [0, 5).
- Keyboard state: `HandleSpeedInput` takes the three "just pressed" flags as parameters.
- Bevy's scheduling: the systems of a step run in the listed order, and no other system runs between them.
- Entities are natural numbers. Spawning new entities is not modelled, so the directory's tables are given.
