/** The job and housing markets: rebuilt from scratch every step from the
    workplaces and houses that have room, then drained by a greedy pass that
    gives every pop without a job (home) the last remaining offer. */
module Markets {
  import opened Ints
  import opened Entities

  const JOB_SALARY: real := 75.0

  datatype JobOffer = JobOffer(workplace: Entity, salary: real, position: TilePos)

  datatype HouseOffer = HouseOffer(house: Entity, position: TilePos)

  class JobMarket {
    var availableJobs: seq<JobOffer>

    constructor ()
      ensures availableJobs == []
    {
      availableJobs := [];
    }
  }

  class HousingMarket {
    var availableHouses: seq<HouseOffer>

    constructor ()
      ensures availableHouses == []
    {
      availableHouses := [];
    }
  }

  // ---------------------------------------------------------------- rebuild

  /** A workplace has an opening when it employs fewer pops than its capacity. */
  predicate HasOpening(w: Workplace) {
    |w.employees| < w.capacity
  }

  /** A house has a vacancy when fewer pops live there than its capacity. */
  predicate HasVacancy(h: House) {
    |h.residents| < h.capacity
  }

  function OfferFor(w: Workplace): JobOffer {
    JobOffer(w.entity, JOB_SALARY, w.position)
  }

  function HouseOfferFor(h: House): HouseOffer {
    HouseOffer(h.entity, h.position)
  }

  /** The job list a rebuild produces: one offer at the fixed salary per
      workplace with an opening, in iteration order. */
  function OpenJobs(ws: seq<Workplace>): (jobs: seq<JobOffer>)
    ensures |jobs| <= |ws|
    ensures forall k :: 0 <= k < |jobs| ==> jobs[k].salary == JOB_SALARY
  {
    if ws == [] then []
    else OpenJobs(ws[..|ws| - 1]) + (if HasOpening(ws[|ws| - 1]) then [OfferFor(ws[|ws| - 1])] else [])
  }

  /** The house list a rebuild produces: one offer per house with a vacancy,
      in iteration order. */
  function OpenHouses(hs: seq<House>): (homes: seq<HouseOffer>)
    ensures |homes| <= |hs|
  {
    if hs == [] then []
    else OpenHouses(hs[..|hs| - 1]) + (if HasVacancy(hs[|hs| - 1]) then [HouseOfferFor(hs[|hs| - 1])] else [])
  }

  /** The job list holds an offer exactly for each workplace with an
      opening. */
  lemma {:induction false} OpenJobsExactly(ws: seq<Workplace>, o: JobOffer)
    ensures o in OpenJobs(ws) <==> exists i :: 0 <= i < |ws| && HasOpening(ws[i]) && o == OfferFor(ws[i])
    decreases |ws|
  {
    if ws != [] {
      var init := ws[..|ws| - 1];
      OpenJobsExactly(init, o);
      assert forall i :: 0 <= i < |init| ==> init[i] == ws[i];
      if o in OpenJobs(ws) && o !in OpenJobs(init) {
        assert HasOpening(ws[|ws| - 1]) && o == OfferFor(ws[|ws| - 1]);
      }
    }
  }

  /** The house list holds an offer exactly for each house with a vacancy. */
  lemma {:induction false} OpenHousesExactly(hs: seq<House>, o: HouseOffer)
    ensures o in OpenHouses(hs) <==> exists i :: 0 <= i < |hs| && HasVacancy(hs[i]) && o == HouseOfferFor(hs[i])
    decreases |hs|
  {
    if hs != [] {
      var init := hs[..|hs| - 1];
      OpenHousesExactly(init, o);
      assert forall i :: 0 <= i < |init| ==> init[i] == hs[i];
      if o in OpenHouses(hs) && o !in OpenHouses(init) {
        assert HasVacancy(hs[|hs| - 1]) && o == HouseOfferFor(hs[|hs| - 1]);
      }
    }
  }

  /** The rebuild keeps iteration order: the offers of the first workplaces
      come before those of the later ones. */
  lemma {:induction false} OpenJobsConcat(a: seq<Workplace>, b: seq<Workplace>)
    ensures OpenJobs(a + b) == OpenJobs(a) + OpenJobs(b)
    decreases |b|
  {
    if b == [] {
      assert a + b == a;
    } else {
      var init := b[..|b| - 1];
      assert (a + b)[..|a + b| - 1] == a + init;
      assert (a + b)[|a + b| - 1] == b[|b| - 1];
      OpenJobsConcat(a, init);
    }
  }

  /** The same for houses. */
  lemma {:induction false} OpenHousesConcat(a: seq<House>, b: seq<House>)
    ensures OpenHouses(a + b) == OpenHouses(a) + OpenHouses(b)
    decreases |b|
  {
    if b == [] {
      assert a + b == a;
    } else {
      var init := b[..|b| - 1];
      assert (a + b)[..|a + b| - 1] == a + init;
      assert (a + b)[|a + b| - 1] == b[|b| - 1];
      OpenHousesConcat(a, init);
    }
  }

  /** How many offers of a list name a workplace (a house). */
  function CountJobs(x: Entity, jobs: seq<JobOffer>): nat {
    if jobs == [] then 0
    else CountJobs(x, jobs[..|jobs| - 1]) + (if jobs[|jobs| - 1].workplace == x then 1 else 0)
  }

  function CountHomes(x: Entity, homes: seq<HouseOffer>): nat {
    if homes == [] then 0
    else CountHomes(x, homes[..|homes| - 1]) + (if homes[|homes| - 1].house == x then 1 else 0)
  }

  lemma {:induction false} OpenJobsAbsent(ws: seq<Workplace>, x: Entity)
    requires forall i :: 0 <= i < |ws| ==> ws[i].entity != x
    ensures CountJobs(x, OpenJobs(ws)) == 0
    decreases |ws|
  {
    if ws != [] {
      var init := ws[..|ws| - 1];
      OpenJobsAbsent(init, x);
      var tail := if HasOpening(ws[|ws| - 1]) then [OfferFor(ws[|ws| - 1])] else [];
      if tail == [] {
        assert OpenJobs(ws) == OpenJobs(init);
      } else {
        assert OpenJobs(ws)[..|OpenJobs(ws)| - 1] == OpenJobs(init);
      }
    }
  }

  lemma {:induction false} OpenHousesAbsent(hs: seq<House>, x: Entity)
    requires forall i :: 0 <= i < |hs| ==> hs[i].entity != x
    ensures CountHomes(x, OpenHouses(hs)) == 0
    decreases |hs|
  {
    if hs != [] {
      var init := hs[..|hs| - 1];
      OpenHousesAbsent(init, x);
      var tail := if HasVacancy(hs[|hs| - 1]) then [HouseOfferFor(hs[|hs| - 1])] else [];
      if tail == [] {
        assert OpenHouses(hs) == OpenHouses(init);
      } else {
        assert OpenHouses(hs)[..|OpenHouses(hs)| - 1] == OpenHouses(init);
      }
    }
  }

  /** With unique entities, a rebuild lists each workplace once when it has an
      opening and not at all otherwise. */
  lemma {:induction false} OpenJobsListOnce(ws: seq<Workplace>, i: nat)
    requires UniqueWorkplaces(ws) && i < |ws|
    ensures CountJobs(ws[i].entity, OpenJobs(ws)) == if HasOpening(ws[i]) then 1 else 0
    decreases |ws|
  {
    var init := ws[..|ws| - 1];
    var last := ws[|ws| - 1];
    var x := ws[i].entity;
    assert forall j :: 0 <= j < |init| ==> init[j] == ws[j];
    if i == |ws| - 1 {
      OpenJobsAbsent(init, x);
    } else {
      OpenJobsListOnce(init, i);
      assert last.entity != x;
    }
    if HasOpening(last) {
      assert OpenJobs(ws)[..|OpenJobs(ws)| - 1] == OpenJobs(init);
    } else {
      assert OpenJobs(ws) == OpenJobs(init);
    }
  }

  /** With unique entities, a rebuild lists each house once when it has a
      vacancy and not at all otherwise. */
  lemma {:induction false} OpenHousesListOnce(hs: seq<House>, i: nat)
    requires UniqueHouses(hs) && i < |hs|
    ensures CountHomes(hs[i].entity, OpenHouses(hs)) == if HasVacancy(hs[i]) then 1 else 0
    decreases |hs|
  {
    var init := hs[..|hs| - 1];
    var last := hs[|hs| - 1];
    var x := hs[i].entity;
    assert forall j :: 0 <= j < |init| ==> init[j] == hs[j];
    if i == |hs| - 1 {
      OpenHousesAbsent(init, x);
    } else {
      OpenHousesListOnce(init, i);
      assert last.entity != x;
    }
    if HasVacancy(last) {
      assert OpenHouses(hs)[..|OpenHouses(hs)| - 1] == OpenHouses(init);
    } else {
      assert OpenHouses(hs) == OpenHouses(init);
    }
  }

  /** Clears both markets and rebuilds them from the directory; the old
      contents play no part, so rebuilding twice gives the same lists. */
  method ManageMarkets(world: World, jobs: JobMarket, housing: HousingMarket)
    modifies jobs, housing
    ensures jobs.availableJobs == OpenJobs(world.workplaces)
    ensures housing.availableHouses == OpenHouses(world.houses)
  {
    jobs.availableJobs := [];
    for i := 0 to |world.workplaces|
      invariant jobs.availableJobs == OpenJobs(world.workplaces[..i])
    {
      var w := world.workplaces[i];
      assert world.workplaces[..i + 1][..i] == world.workplaces[..i];
      if HasOpening(w) {
        jobs.availableJobs := jobs.availableJobs + [OfferFor(w)];
      }
    }
    assert world.workplaces[..|world.workplaces|] == world.workplaces;

    housing.availableHouses := [];
    for i := 0 to |world.houses|
      invariant housing.availableHouses == OpenHouses(world.houses[..i])
      invariant jobs.availableJobs == OpenJobs(world.workplaces)
    {
      var h := world.houses[i];
      assert world.houses[..i + 1][..i] == world.houses[..i];
      if HasVacancy(h) {
        housing.availableHouses := housing.availableHouses + [HouseOfferFor(h)];
      }
    }
    assert world.houses[..|world.houses|] == world.houses;
  }

  // ---------------------------------------------------------------- the opening test as written

  /** The opening test as the rebuild writes it: `capacity as i32 -
      employees.len() as i32 > 0`, with the casts and the difference in
      two's complement. */
  predicate HasOpeningAsWritten(w: Workplace)
    ensures |w.employees| <= w.capacity && HasOpeningAsWritten(w) ==> HasOpening(w)
  {
    AsI32(AsI32(w.capacity) - AsI32(|w.employees|)) > 0
  }

  /** A workplace with capacity 2^31 and no employees has room, but the test
      as written reads its capacity as a negative number and never lists it. */
  lemma AsWrittenMissesLargeWorkplace()
    ensures var w := Workplace(0, 0x8000_0000, [], TilePos(0, 0));
            HasOpening(w) && !HasOpeningAsWritten(w)
  {
    var w := Workplace(0, 0x8000_0000, [], TilePos(0, 0));
    assert AsI32(w.capacity) == I32_MIN;
    assert AsI32(|w.employees|) == 0;
    assert AsI32(I32_MIN - 0) == I32_MIN;
  }

  /** Below 2^31 the test as written and the intended one agree. */
  lemma AsWrittenAgreesBelowI32Max(w: Workplace)
    requires w.capacity <= I32_MAX && |w.employees| <= I32_MAX
    ensures HasOpeningAsWritten(w) <==> HasOpening(w)
  {
  }

  // ---------------------------------------------------------------- matching

  /** What the matching pass changes besides the pops: the workplaces and
      houses, and the two offer lists. A pop's turn reads only that pop and
      this state, so the pass is a fold of this state over the pops. */
  datatype Market = Market(
    workplaces: seq<Workplace>,
    houses: seq<House>,
    jobs: seq<JobOffer>,
    homes: seq<HouseOffer>)

  function JobFromOffer(o: JobOffer): Job {
    Job(o.workplace, o.salary, o.position)
  }

  /** Adds a pop to the employees of the workplace with entity `e`, if the
      directory has one. */
  function Hire(ws: seq<Workplace>, e: Entity, who: Entity): seq<Workplace> {
    match FindWorkplace(ws, e)
    case None => ws
    case Some(i) => ws[i := ws[i].(employees := ws[i].employees + [who])]
  }

  /** Adds a pop to the residents of the house with entity `e`, if the
      directory has one. */
  function MoveIn(hs: seq<House>, e: Entity, who: Entity): seq<House> {
    match FindHouse(hs, e)
    case None => hs
    case Some(i) => hs[i := hs[i].(residents := hs[i].residents + [who])]
  }

  /** The market after the job half of pop `p`'s turn: a pop without a job
      pops the last offer and joins that workplace's employees. */
  function TakeJob(s: Market, p: Pop): Market {
    if p.job.Some? || |s.jobs| == 0 then s
    else
      var o := s.jobs[|s.jobs| - 1];
      s.(jobs := s.jobs[..|s.jobs| - 1], workplaces := Hire(s.workplaces, o.workplace, p.entity))
  }

  /** Pop `p` after the job half of its turn at market `s`. */
  function WithJob(s: Market, p: Pop): (q: Pop)
    ensures q.job == if p.job.None? && |s.jobs| > 0 then Some(JobFromOffer(s.jobs[|s.jobs| - 1])) else p.job
    ensures q.(job := p.job) == p
  {
    if p.job.Some? || |s.jobs| == 0 then p else p.(job := Some(JobFromOffer(s.jobs[|s.jobs| - 1])))
  }

  /** The market after the home half of pop `p`'s turn: a pop without a home
      pops the last house offer and joins that house's residents. */
  function TakeHome(s: Market, p: Pop): Market {
    if p.home.Some? || |s.homes| == 0 then s
    else
      var o := s.homes[|s.homes| - 1];
      s.(homes := s.homes[..|s.homes| - 1], houses := MoveIn(s.houses, o.house, p.entity))
  }

  /** Pop `p` after the home half of its turn: a new home also becomes its
      destination. */
  function WithHome(s: Market, p: Pop): (q: Pop)
    ensures q.home == if p.home.None? && |s.homes| > 0 then Some(s.homes[|s.homes| - 1].house) else p.home
    ensures p.home.None? && |s.homes| > 0 ==> q.destination == Some(WorldPosition(s.homes[|s.homes| - 1].position))
    ensures q.(home := p.home, destination := p.destination) == p
  {
    if p.home.Some? || |s.homes| == 0 then p
    else
      var o := s.homes[|s.homes| - 1];
      p.(home := Some(o.house), destination := Some(WorldPosition(o.position)))
  }

  /** The market after pop `p`'s whole turn. The job half leaves the pop's
      entity and home as they were, so the home half reads them from `p`; the
      two halves change disjoint parts of the market. */
  function Serve(s: Market, p: Pop): Market {
    TakeHome(TakeJob(s, p), p)
  }

  /** The two halves of a turn change disjoint parts of the market: the
      workplaces and job offers come from the job half alone, the houses and
      house offers from the home half alone. */
  lemma ServeHalves(s: Market, p: Pop)
    ensures Serve(s, p).workplaces == TakeJob(s, p).workplaces && Serve(s, p).jobs == TakeJob(s, p).jobs
    ensures Serve(s, p).houses == TakeHome(s, p).houses && Serve(s, p).homes == TakeHome(s, p).homes
  {
  }

  /** `q` is pop `p` after matching: its identity, needs, money, position and
      state are untouched; a job or home it had is kept; its destination
      changes only together with its home. */
  predicate MatchedFrom(q: Pop, p: Pop) {
    && q.entity == p.entity && q.money == p.money && q.hunger == p.hunger && q.energy == p.energy
    && q.position == p.position && q.state == p.state
    && (p.job.Some? ==> q.job == p.job)
    && (p.home.Some? ==> q.home == p.home)
    && (q.home == p.home ==> q.destination == p.destination)
  }

  /** Pop `p` after its whole turn at market `s`: a pop without a job gets
      the last job offer, one without a home the last house offer, while
      offers last. */
  function Served(s: Market, p: Pop): (q: Pop)
    ensures MatchedFrom(q, p)
    ensures p.job.None? ==> q.job == if |s.jobs| > 0 then Some(JobFromOffer(s.jobs[|s.jobs| - 1])) else None
    ensures p.home.None? ==> q.home == if |s.homes| > 0 then Some(s.homes[|s.homes| - 1].house) else None
    ensures p.home.None? && |s.homes| > 0 ==> q.destination == Some(WorldPosition(s.homes[|s.homes| - 1].position))
  {
    WithHome(TakeJob(s, p), WithJob(s, p))
  }

  /** The market after the first `n` pops have had their turns. */
  function MarketAfter(s: Market, pops: seq<Pop>, n: nat): (r: Market)
    requires n <= |pops|
    ensures |r.workplaces| == |s.workplaces| && |r.houses| == |s.houses|
  {
    if n == 0 then s else Serve(MarketAfter(s, pops, n - 1), pops[n - 1])
  }

  /** The first `n` pops after their turns: each one is served at the market
      the pops before it left behind. */
  function ServedPops(s: Market, pops: seq<Pop>, n: nat): (r: seq<Pop>)
    requires n <= |pops|
    ensures |r| == n
    ensures forall j {:trigger r[j]} :: 0 <= j < n ==> r[j] == Served(MarketAfter(s, pops, j), pops[j])
  {
    if n == 0 then [] else ServedPops(s, pops, n - 1) + [Served(MarketAfter(s, pops, n - 1), pops[n - 1])]
  }

  /** The number of pops among the first `n` without a job (without a home). */
  function JoblessBefore(pops: seq<Pop>, n: nat): nat
    requires n <= |pops|
  {
    if n == 0 then 0 else JoblessBefore(pops, n - 1) + (if pops[n - 1].job.None? then 1 else 0)
  }

  function HomelessBefore(pops: seq<Pop>, n: nat): nat
    requires n <= |pops|
  {
    if n == 0 then 0 else HomelessBefore(pops, n - 1) + (if pops[n - 1].home.None? then 1 else 0)
  }

  // ---------------------------------------------------------------- the offer lists

  /** Dropping the last element of a list already shortened by `c` is
      shortening it by `c + 1`, down to the empty list. */
  lemma DropStep<T>(s: seq<T>, c: nat, cur: seq<T>, next: seq<T>, took: bool)
    requires cur == s[..|s| - Min(c, |s|)]
    requires next == if took && |cur| > 0 then cur[..|cur| - 1] else cur
    ensures next == s[..|s| - Min(c + (if took then 1 else 0), |s|)]
  {
  }

  /** The job offers shrink from their end: after `n` turns, one offer is
      gone per pop that lacked a job, until the list is empty. */
  lemma {:induction false} MarketAfterDrainsJobs(s: Market, pops: seq<Pop>, n: nat)
    requires n <= |pops|
    ensures MarketAfter(s, pops, n).jobs == s.jobs[..|s.jobs| - Min(JoblessBefore(pops, n), |s.jobs|)]
    decreases n
  {
    if n > 0 {
      var prev := MarketAfter(s, pops, n - 1);
      MarketAfterDrainsJobs(s, pops, n - 1);
      DropStep(s.jobs, JoblessBefore(pops, n - 1), prev.jobs, Serve(prev, pops[n - 1]).jobs, pops[n - 1].job.None?);
    }
  }

  /** The house offers shrink from their end in the same way. */
  lemma {:induction false} MarketAfterDrainsHomes(s: Market, pops: seq<Pop>, n: nat)
    requires n <= |pops|
    ensures MarketAfter(s, pops, n).homes == s.homes[..|s.homes| - Min(HomelessBefore(pops, n), |s.homes|)]
    decreases n
  {
    if n > 0 {
      var prev := MarketAfter(s, pops, n - 1);
      MarketAfterDrainsHomes(s, pops, n - 1);
      DropStep(s.homes, HomelessBefore(pops, n - 1), prev.homes, Serve(prev, pops[n - 1]).homes, pops[n - 1].home.None?);
    }
  }

  /** A list shortened by `c` is empty exactly when `c` reaches its length,
      and otherwise ends with the element `c` places from its end. */
  lemma LastOfShortened<T>(s: seq<T>, c: nat)
    ensures var t := s[..|s| - Min(c, |s|)];
            && (|t| > 0 <==> c < |s|)
            && (c < |s| ==> t[|t| - 1] == s[|s| - 1 - c])
  {
  }

  /** A jobless pop served after `rank` offers were taken from `jobs` gets
      the offer `rank` places from the end, if any is left. */
  lemma ServedAfterOthersJob(jobs: seq<JobOffer>, rank: nat, m: Market, p: Pop)
    requires p.job.None? && m.jobs == jobs[..|jobs| - Min(rank, |jobs|)]
    ensures Served(m, p).job == if rank < |jobs| then Some(JobFromOffer(jobs[|jobs| - 1 - rank])) else None
  {
    LastOfShortened(jobs, rank);
  }

  /** The same for a homeless pop and the house offers. */
  lemma ServedAfterOthersHome(homes: seq<HouseOffer>, rank: nat, m: Market, p: Pop)
    requires p.home.None? && m.homes == homes[..|homes| - Min(rank, |homes|)]
    ensures var q := Served(m, p);
            && q.home == (if rank < |homes| then Some(homes[|homes| - 1 - rank].house) else None)
            && (rank < |homes| ==> q.destination == Some(WorldPosition(homes[|homes| - 1 - rank].position)))
  {
    LastOfShortened(homes, rank);
  }

  /** The greedy rule: a pop without a job takes the offer at position
      `|jobs| - 1 - rank` of the list the pass started with, where `rank`
      counts the jobless pops before it; once the list runs out it stays
      jobless. */
  lemma TakesOfferFromEndJob(s: Market, pops: seq<Pop>, j: nat)
    requires j < |pops| && pops[j].job.None?
    ensures var rank := JoblessBefore(pops, j);
            ServedPops(s, pops, |pops|)[j].job
              == if rank < |s.jobs| then Some(JobFromOffer(s.jobs[|s.jobs| - 1 - rank])) else None
  {
    var m := MarketAfter(s, pops, j);
    assert ServedPops(s, pops, |pops|)[j] == Served(m, pops[j]);
    MarketAfterDrainsJobs(s, pops, j);
    ServedAfterOthersJob(s.jobs, JoblessBefore(pops, j), m, pops[j]);
  }

  /** The same rule for homes; a new home also becomes the pop's
      destination. */
  lemma TakesOfferFromEndHome(s: Market, pops: seq<Pop>, j: nat)
    requires j < |pops| && pops[j].home.None?
    ensures var rank, q := HomelessBefore(pops, j), ServedPops(s, pops, |pops|)[j];
            && q.home == (if rank < |s.homes| then Some(s.homes[|s.homes| - 1 - rank].house) else None)
            && (rank < |s.homes| ==> q.destination == Some(WorldPosition(s.homes[|s.homes| - 1 - rank].position)))
  {
    var m := MarketAfter(s, pops, j);
    assert ServedPops(s, pops, |pops|)[j] == Served(m, pops[j]);
    MarketAfterDrainsHomes(s, pops, j);
    ServedAfterOthersHome(s.homes, HomelessBefore(pops, j), m, pops[j]);
  }

  // ---------------------------------------------------------------- workplaces and houses

  /** `w2` is workplace `w` after matching: same entity, capacity and
      position, its employee list extended at the end. */
  predicate WorkplaceGrown(w2: Workplace, w: Workplace) {
    && w2.entity == w.entity && w2.capacity == w.capacity && w2.position == w.position
    && w.employees <= w2.employees
  }

  predicate HouseGrown(h2: House, h: House) {
    && h2.entity == h.entity && h2.capacity == h.capacity && h2.position == h.position
    && h.residents <= h2.residents
  }

  predicate WorkplacesGrown(ws2: seq<Workplace>, ws: seq<Workplace>) {
    |ws2| == |ws| && forall i :: 0 <= i < |ws| ==> WorkplaceGrown(ws2[i], ws[i])
  }

  predicate HousesGrown(hs2: seq<House>, hs: seq<House>) {
    |hs2| == |hs| && forall i :: 0 <= i < |hs| ==> HouseGrown(hs2[i], hs[i])
  }

  lemma PrefixTransitive(a: seq<Entity>, b: seq<Entity>, c: seq<Entity>)
    requires a <= b && b <= c
    ensures a <= c
  {
    assert a == b[..|a|];
    assert b == c[..|b|];
    assert c[..|b|][..|a|] == c[..|a|];
  }

  lemma WorkplaceGrownTransitive(a: Workplace, b: Workplace, c: Workplace)
    requires WorkplaceGrown(b, a) && WorkplaceGrown(c, b)
    ensures WorkplaceGrown(c, a)
  {
    PrefixTransitive(a.employees, b.employees, c.employees);
  }

  lemma HouseGrownTransitive(a: House, b: House, c: House)
    requires HouseGrown(b, a) && HouseGrown(c, b)
    ensures HouseGrown(c, a)
  {
    PrefixTransitive(a.residents, b.residents, c.residents);
  }

  /** One pop's turn only appends to one employee list and one resident
      list. */
  lemma ServeGrowsSite(m: Market, p: Pop, i: nat)
    ensures var r := Serve(m, p);
            && (i < |m.workplaces| ==> WorkplaceGrown(r.workplaces[i], m.workplaces[i]))
            && (i < |m.houses| ==> HouseGrown(r.houses[i], m.houses[i]))
  {
  }

  /** Between any two points of the pass, matching only appends to employee
      and resident lists; entities, capacities and positions stay. */
  lemma {:induction false} MarketAfterGrowsFrom(s: Market, pops: seq<Pop>, k: nat, n: nat, i: nat)
    requires k <= n <= |pops|
    ensures var a, r := MarketAfter(s, pops, k), MarketAfter(s, pops, n);
            && (i < |s.workplaces| ==> WorkplaceGrown(r.workplaces[i], a.workplaces[i]))
            && (i < |s.houses| ==> HouseGrown(r.houses[i], a.houses[i]))
    decreases n
  {
    if n > k {
      var a, prev, r := MarketAfter(s, pops, k), MarketAfter(s, pops, n - 1), MarketAfter(s, pops, n);
      MarketAfterGrowsFrom(s, pops, k, n - 1, i);
      ServeGrowsSite(prev, pops[n - 1], i);
      if i < |s.workplaces| {
        WorkplaceGrownTransitive(a.workplaces[i], prev.workplaces[i], r.workplaces[i]);
      }
      if i < |s.houses| {
        HouseGrownTransitive(a.houses[i], prev.houses[i], r.houses[i]);
      }
    }
  }

  /** Matching only appends to employee and resident lists; entities,
      capacities and positions stay. */
  lemma MarketAfterSite(s: Market, pops: seq<Pop>, n: nat, i: nat)
    requires n <= |pops|
    ensures var r := MarketAfter(s, pops, n);
            && (i < |s.workplaces| ==> WorkplaceGrown(r.workplaces[i], s.workplaces[i]))
            && (i < |s.houses| ==> HouseGrown(r.houses[i], s.houses[i]))
  {
    MarketAfterGrowsFrom(s, pops, 0, n, i);
  }

  lemma MarketAfterSites(s: Market, pops: seq<Pop>, n: nat)
    requires n <= |pops|
    ensures WorkplacesGrown(MarketAfter(s, pops, n).workplaces, s.workplaces)
    ensures HousesGrown(MarketAfter(s, pops, n).houses, s.houses)
  {
    forall i | 0 <= i < |s.workplaces|
      ensures WorkplaceGrown(MarketAfter(s, pops, n).workplaces[i], s.workplaces[i])
    {
      MarketAfterSite(s, pops, n, i);
    }
    forall i | 0 <= i < |s.houses|
      ensures HouseGrown(MarketAfter(s, pops, n).houses[i], s.houses[i])
    {
      MarketAfterSite(s, pops, n, i);
    }
  }

  /** Matching keeps the entities of workplaces and houses unique. */
  lemma MarketAfterUnique(s: Market, pops: seq<Pop>, n: nat)
    requires n <= |pops| && UniqueWorkplaces(s.workplaces) && UniqueHouses(s.houses)
    ensures UniqueWorkplaces(MarketAfter(s, pops, n).workplaces) && UniqueHouses(MarketAfter(s, pops, n).houses)
  {
    MarketAfterSites(s, pops, n);
  }

  /** A lookup gives the same answer on a table whose entities are the same,
      position by position. */
  lemma SameWorkplaceLookup(a: seq<Workplace>, b: seq<Workplace>, e: Entity, i: nat)
    requires WorkplacesGrown(b, a) && FindWorkplace(a, e) == Some(i)
    ensures FindWorkplace(b, e) == Some(i)
  {
    assert b[i].entity == e;
    match FindWorkplace(b, e)
    case None =>
    case Some(k) =>
      assert a[k].entity == e;
  }

  lemma SameHouseLookup(a: seq<House>, b: seq<House>, e: Entity, i: nat)
    requires HousesGrown(b, a) && FindHouse(a, e) == Some(i)
    ensures FindHouse(b, e) == Some(i)
  {
    assert b[i].entity == e;
    match FindHouse(b, e)
    case None =>
    case Some(k) =>
      assert a[k].entity == e;
  }

  lemma PrefixKeepsMember(x: Entity, a: seq<Entity>, b: seq<Entity>)
    requires x in a && a <= b
    ensures x in b
  {
    var k :| 0 <= k < |a| && a[k] == x;
    assert b[k] == b[..|a|][k];
  }

  /** The job half of a turn: a pop without a job facing an offer pops the
      last one; otherwise nothing changes. Houses and house offers are never
      touched. */
  lemma TakeJobPops(s: Market, p: Pop)
    ensures var r := TakeJob(s, p);
            && r.houses == s.houses && r.homes == s.homes && |r.workplaces| == |s.workplaces|
            && r.jobs == (if p.job.None? && |s.jobs| > 0 then s.jobs[..|s.jobs| - 1] else s.jobs)
            && (p.job.Some? || |s.jobs| == 0 ==> r == s)
  {
  }

  /** The home half of a turn: a pop without a home facing an offer pops the
      last one; otherwise nothing changes. Workplaces and job offers are never
      touched. */
  lemma TakeHomePops(s: Market, p: Pop)
    ensures var r := TakeHome(s, p);
            && r.workplaces == s.workplaces && r.jobs == s.jobs && |r.houses| == |s.houses|
            && r.homes == (if p.home.None? && |s.homes| > 0 then s.homes[..|s.homes| - 1] else s.homes)
            && (p.home.Some? || |s.homes| == 0 ==> r == s)
  {
  }

  /** Taking a job appends the pop to the employees of the workplace the last
      offer names, and leaves every other workplace alone. */
  lemma TakeJobHires(s: Market, p: Pop, i: nat)
    requires p.job.None? && |s.jobs| > 0
    requires FindWorkplace(s.workplaces, s.jobs[|s.jobs| - 1].workplace) == Some(i)
    ensures TakeJob(s, p).workplaces[i] == s.workplaces[i].(employees := s.workplaces[i].employees + [p.entity])
    ensures forall k :: 0 <= k < |s.workplaces| && k != i ==> TakeJob(s, p).workplaces[k] == s.workplaces[k]
  {
  }

  /** Taking a home appends the pop to the residents of the house the last
      offer names, and leaves every other house alone. */
  lemma TakeHomeMovesIn(s: Market, p: Pop, i: nat)
    requires p.home.None? && |s.homes| > 0
    requires FindHouse(s.houses, s.homes[|s.homes| - 1].house) == Some(i)
    ensures TakeHome(s, p).houses[i] == s.houses[i].(residents := s.houses[i].residents + [p.entity])
    ensures forall k :: 0 <= k < |s.houses| && k != i ==> TakeHome(s, p).houses[k] == s.houses[k]
  {
  }

  /** The turns before pop `j` keep every lookup by entity. */
  lemma LookupsAfter(s: Market, pops: seq<Pop>, j: nat, e: Entity)
    requires j <= |pops|
    ensures FindWorkplace(s.workplaces, e).Some? ==>
              FindWorkplace(MarketAfter(s, pops, j).workplaces, e) == FindWorkplace(s.workplaces, e)
    ensures FindHouse(s.houses, e).Some? ==>
              FindHouse(MarketAfter(s, pops, j).houses, e) == FindHouse(s.houses, e)
  {
    var m := MarketAfter(s, pops, j);
    MarketAfterSites(s, pops, j);
    if FindWorkplace(s.workplaces, e).Some? {
      SameWorkplaceLookup(s.workplaces, m.workplaces, e, FindWorkplace(s.workplaces, e).value);
    }
    if FindHouse(s.houses, e).Some? {
      SameHouseLookup(s.houses, m.houses, e, FindHouse(s.houses, e).value);
    }
  }

  /** Pop `j`'s own turn: a jobless pop facing an offer left joins the
      employees of the workplace the offer names. */
  lemma TurnJoinsWorkplace(s: Market, pops: seq<Pop>, j: nat, i: nat)
    requires j < |pops| && pops[j].job.None?
    requires JoblessBefore(pops, j) < |s.jobs|
    requires FindWorkplace(s.workplaces, s.jobs[|s.jobs| - 1 - JoblessBefore(pops, j)].workplace) == Some(i)
    ensures i < |s.workplaces| && pops[j].entity in MarketAfter(s, pops, j + 1).workplaces[i].employees
  {
    var rank, m := JoblessBefore(pops, j), MarketAfter(s, pops, j);
    var o := s.jobs[|s.jobs| - 1 - rank];
    MarketAfterDrainsJobs(s, pops, j);
    LastOfShortened(s.jobs, rank);
    assert |m.jobs| > 0 && m.jobs[|m.jobs| - 1] == o;
    LookupsAfter(s, pops, j, o.workplace);
    TakeJobHires(m, pops[j], i);
    ServeHalves(m, pops[j]);
  }

  /** Pop `j`'s own turn: a homeless pop facing an offer left joins the
      residents of the house the offer names. */
  lemma TurnMovesIntoHouse(s: Market, pops: seq<Pop>, j: nat, i: nat)
    requires j < |pops| && pops[j].home.None?
    requires HomelessBefore(pops, j) < |s.homes|
    requires FindHouse(s.houses, s.homes[|s.homes| - 1 - HomelessBefore(pops, j)].house) == Some(i)
    ensures i < |s.houses| && pops[j].entity in MarketAfter(s, pops, j + 1).houses[i].residents
  {
    var rank, m := HomelessBefore(pops, j), MarketAfter(s, pops, j);
    var o := s.homes[|s.homes| - 1 - rank];
    MarketAfterDrainsHomes(s, pops, j);
    LastOfShortened(s.homes, rank);
    assert |m.homes| > 0 && m.homes[|m.homes| - 1] == o;
    LookupsAfter(s, pops, j, o.house);
    var m1 := TakeJob(m, pops[j]);
    TakeJobPops(m, pops[j]);
    TakeHomeMovesIn(m1, pops[j], i);
    ServeHalves(m, pops[j]);
    TakeHomePops(m1, pops[j]);
  }

  /** A jobless pop that gets an offer ends the pass among the employees of
      the workplace the offer names. */
  lemma JoinsWorkplace(s: Market, pops: seq<Pop>, j: nat, i: nat)
    requires j < |pops| && pops[j].job.None?
    requires JoblessBefore(pops, j) < |s.jobs|
    requires FindWorkplace(s.workplaces, s.jobs[|s.jobs| - 1 - JoblessBefore(pops, j)].workplace) == Some(i)
    ensures i < |s.workplaces| && pops[j].entity in MarketAfter(s, pops, |pops|).workplaces[i].employees
  {
    TurnJoinsWorkplace(s, pops, j, i);
    MarketAfterGrowsFrom(s, pops, j + 1, |pops|, i);
    PrefixKeepsMember(pops[j].entity, MarketAfter(s, pops, j + 1).workplaces[i].employees,
                      MarketAfter(s, pops, |pops|).workplaces[i].employees);
  }

  /** A homeless pop that gets an offer ends the pass among the residents of
      the house the offer names. */
  lemma MovesIntoHouse(s: Market, pops: seq<Pop>, j: nat, i: nat)
    requires j < |pops| && pops[j].home.None?
    requires HomelessBefore(pops, j) < |s.homes|
    requires FindHouse(s.houses, s.homes[|s.homes| - 1 - HomelessBefore(pops, j)].house) == Some(i)
    ensures i < |s.houses| && pops[j].entity in MarketAfter(s, pops, |pops|).houses[i].residents
  {
    TurnMovesIntoHouse(s, pops, j, i);
    MarketAfterGrowsFrom(s, pops, j + 1, |pops|, i);
    PrefixKeepsMember(pops[j].entity, MarketAfter(s, pops, j + 1).houses[i].residents,
                      MarketAfter(s, pops, |pops|).houses[i].residents);
  }

  /** Taking a job moves one offer of a workplace into that workplace's
      employees: employees plus outstanding offers stays the same for each
      workplace. */
  lemma TakeJobConserves(s: Market, p: Pop, i: nat)
    requires i < |s.workplaces| && UniqueWorkplaces(s.workplaces)
    ensures var r := TakeJob(s, p);
            |r.workplaces| == |s.workplaces| &&
            |r.workplaces[i].employees| + CountJobs(r.workplaces[i].entity, r.jobs)
              == |s.workplaces[i].employees| + CountJobs(s.workplaces[i].entity, s.jobs)
  {
    if p.job.None? && |s.jobs| > 0 {
      var o := s.jobs[|s.jobs| - 1];
      match FindWorkplace(s.workplaces, o.workplace)
      case None =>
      case Some(w) =>
        if w != i {
          assert s.workplaces[w].entity != s.workplaces[i].entity by {
            if w < i {} else {}
          }
        }
    }
  }

  /** The same for taking a home. */
  lemma TakeHomeConserves(s: Market, p: Pop, i: nat)
    requires i < |s.houses| && UniqueHouses(s.houses)
    ensures var r := TakeHome(s, p);
            |r.houses| == |s.houses| &&
            |r.houses[i].residents| + CountHomes(r.houses[i].entity, r.homes)
              == |s.houses[i].residents| + CountHomes(s.houses[i].entity, s.homes)
  {
    if p.home.None? && |s.homes| > 0 {
      var o := s.homes[|s.homes| - 1];
      match FindHouse(s.houses, o.house)
      case None =>
      case Some(h) =>
        if h != i {
          assert s.houses[h].entity != s.houses[i].entity by {
            if h < i {} else {}
          }
        }
    }
  }

  /** One pop's turn conserves employees plus outstanding offers for every
      workplace, and residents plus outstanding offers for every house. */
  lemma ServeConserves(m: Market, p: Pop, i: nat)
    requires UniqueWorkplaces(m.workplaces) && UniqueHouses(m.houses)
    ensures var r := Serve(m, p);
            && (i < |m.workplaces| ==>
                  |r.workplaces[i].employees| + CountJobs(r.workplaces[i].entity, r.jobs)
                    == |m.workplaces[i].employees| + CountJobs(m.workplaces[i].entity, m.jobs))
            && (i < |m.houses| ==>
                  |r.houses[i].residents| + CountHomes(r.houses[i].entity, r.homes)
                    == |m.houses[i].residents| + CountHomes(m.houses[i].entity, m.homes))
  {
    if i < |m.workplaces| {
      TakeJobConserves(m, p, i);
    }
    if i < |m.houses| {
      TakeHomeConserves(TakeJob(m, p), p, i);
    }
  }

  /** Over the whole pass, employees plus outstanding offers is conserved for
      each workplace and each house: every pop added to a workplace (house)
      used up one offer naming it. */
  lemma {:induction false} MarketAfterConserves(s: Market, pops: seq<Pop>, n: nat, i: nat)
    requires n <= |pops| && UniqueWorkplaces(s.workplaces) && UniqueHouses(s.houses)
    ensures var r := MarketAfter(s, pops, n);
            && (i < |s.workplaces| ==>
                  |r.workplaces[i].employees| + CountJobs(r.workplaces[i].entity, r.jobs)
                    == |s.workplaces[i].employees| + CountJobs(s.workplaces[i].entity, s.jobs))
            && (i < |s.houses| ==>
                  |r.houses[i].residents| + CountHomes(r.houses[i].entity, r.homes)
                    == |s.houses[i].residents| + CountHomes(s.houses[i].entity, s.homes))
    decreases n
  {
    if n > 0 {
      var prev := MarketAfter(s, pops, n - 1);
      MarketAfterConserves(s, pops, n - 1, i);
      MarketAfterUnique(s, pops, n - 1);
      ServeConserves(prev, pops[n - 1], i);
    }
  }

  /** Every workplace (house) has room for the offers that name it. */
  predicate JobSlack(ws: seq<Workplace>, jobs: seq<JobOffer>) {
    forall i :: 0 <= i < |ws| ==> |ws[i].employees| + CountJobs(ws[i].entity, jobs) <= ws[i].capacity
  }

  predicate HomeSlack(hs: seq<House>, homes: seq<HouseOffer>) {
    forall i :: 0 <= i < |hs| ==> |hs[i].residents| + CountHomes(hs[i].entity, homes) <= hs[i].capacity
  }

  predicate WorkplacesWithinCapacity(ws: seq<Workplace>) {
    forall i :: 0 <= i < |ws| ==> |ws[i].employees| <= ws[i].capacity
  }

  predicate HousesWithinCapacity(hs: seq<House>) {
    forall i :: 0 <= i < |hs| ==> |hs[i].residents| <= hs[i].capacity
  }

  /** A pass that starts with room for every outstanding offer ends with no
      workplace and no house over capacity. */
  lemma AssignRespectsCapacity(s: Market, pops: seq<Pop>)
    requires UniqueWorkplaces(s.workplaces) && UniqueHouses(s.houses)
    requires JobSlack(s.workplaces, s.jobs) && HomeSlack(s.houses, s.homes)
    ensures var r := MarketAfter(s, pops, |pops|);
            WorkplacesWithinCapacity(r.workplaces) && HousesWithinCapacity(r.houses)
  {
    var r := MarketAfter(s, pops, |pops|);
    forall i | 0 <= i < |r.workplaces|
      ensures |r.workplaces[i].employees| <= r.workplaces[i].capacity
    {
      MarketAfterConserves(s, pops, |pops|, i);
      MarketAfterSite(s, pops, |pops|, i);
    }
    forall i | 0 <= i < |r.houses|
      ensures |r.houses[i].residents| <= r.houses[i].capacity
    {
      MarketAfterConserves(s, pops, |pops|, i);
      MarketAfterSite(s, pops, |pops|, i);
    }
  }

  /** The market a rebuild leaves: the directory's workplaces and houses and
      the open offers. */
  function Rebuilt(ws: seq<Workplace>, hs: seq<House>): Market {
    Market(ws, hs, OpenJobs(ws), OpenHouses(hs))
  }

  /** A rebuild followed by the matching pass keeps every workplace and house
      within capacity. */
  lemma RebuildThenAssignRespectsCapacity(pops: seq<Pop>, ws: seq<Workplace>, hs: seq<House>)
    requires UniqueWorkplaces(ws) && UniqueHouses(hs)
    requires WorkplacesWithinCapacity(ws) && HousesWithinCapacity(hs)
    ensures var r := MarketAfter(Rebuilt(ws, hs), pops, |pops|);
            WorkplacesWithinCapacity(r.workplaces) && HousesWithinCapacity(r.houses)
  {
    forall i | 0 <= i < |ws|
      ensures |ws[i].employees| + CountJobs(ws[i].entity, OpenJobs(ws)) <= ws[i].capacity
    {
      OpenJobsListOnce(ws, i);
    }
    forall i | 0 <= i < |hs|
      ensures |hs[i].residents| + CountHomes(hs[i].entity, OpenHouses(hs)) <= hs[i].capacity
    {
      OpenHousesListOnce(hs, i);
    }
    AssignRespectsCapacity(Rebuilt(ws, hs), pops);
  }

  // ---------------------------------------------------------------- the pass on the directory

  /** The market held by the directory and the two market resources. */
  function MarketOf(world: World, jobs: JobMarket, housing: HousingMarket): Market
    reads world, jobs, housing
  {
    Market(world.workplaces, world.houses, jobs.availableJobs, housing.availableHouses)
  }

  /** Serves every pop in iteration order: one without a job pops the last
      job offer and joins that workplace's employees; one without a home pops
      the last house offer, joins that house's residents and heads for it. */
  method AssignJobsAndHousing(world: World, jobs: JobMarket, housing: HousingMarket)
    requires world.Valid()
    modifies world`pops, world`workplaces, world`houses, jobs, housing
    ensures world.Valid()
    ensures world.pops == ServedPops(old(MarketOf(world, jobs, housing)), old(world.pops), |old(world.pops)|)
    ensures MarketOf(world, jobs, housing) == MarketAfter(old(MarketOf(world, jobs, housing)), old(world.pops), |old(world.pops)|)
  {
    ghost var start := MarketOf(world, jobs, housing);
    ghost var pops := world.pops;
    var i := 0;
    while i < |world.pops|
      invariant 0 <= i <= |world.pops| == |pops|
      invariant world.pops == ServedPops(start, pops, i) + pops[i..]
      invariant MarketOf(world, jobs, housing) == MarketAfter(start, pops, i)
    {
      ServeNext(world, jobs, housing, i, start, pops);
      i := i + 1;
    }
    assert pops[i..] == [];
    MarketAfterUnique(start, pops, |pops|);
  }

  /** Serving pop `i` in a list whose first `i` pops are served, and whose
      others are as they were, extends the served prefix by one. */
  lemma ServedPopsStep(s: Market, pops: seq<Pop>, i: nat, cur: seq<Pop>)
    requires i < |pops| && cur == ServedPops(s, pops, i) + pops[i..]
    ensures i < |cur| && cur[i] == pops[i]
    ensures cur[i := Served(MarketAfter(s, pops, i), cur[i])] == ServedPops(s, pops, i + 1) + pops[i + 1..]
  {
    var x := Served(MarketAfter(s, pops, i), pops[i]);
    assert ServedPops(s, pops, i + 1) == ServedPops(s, pops, i) + [x];
    assert pops[i..][1..] == pops[i + 1..];
    ReplaceFirstOfRest(ServedPops(s, pops, i), pops[i..], x);
  }

  /** Replacing the first element after a prefix. */
  lemma ReplaceFirstOfRest<T>(head: seq<T>, rest: seq<T>, x: T)
    requires |rest| > 0
    ensures (head + rest)[|head|] == rest[0]
    ensures (head + rest)[|head| := x] == head + [x] + rest[1..]
  {
  }

  /** One iteration of the pass: pop `i`'s turn takes the directory from the
      state after `i` turns to the state after `i + 1`. */
  method ServeNext(world: World, jobs: JobMarket, housing: HousingMarket, i: nat, ghost start: Market, ghost pops: seq<Pop>)
    requires i < |pops|
    requires world.pops == ServedPops(start, pops, i) + pops[i..]
    requires MarketOf(world, jobs, housing) == MarketAfter(start, pops, i)
    modifies world`pops, world`workplaces, world`houses, jobs, housing
    ensures world.pops == ServedPops(start, pops, i + 1) + pops[i + 1..]
    ensures MarketOf(world, jobs, housing) == MarketAfter(start, pops, i + 1)
  {
    ServedPopsStep(start, pops, i, world.pops);
    ServeOne(world, jobs, housing, i);
  }

  /** Pop `i`'s whole turn: the job half, then the home half. */
  method ServeOne(world: World, jobs: JobMarket, housing: HousingMarket, i: nat)
    requires i < |world.pops|
    modifies world`pops, world`workplaces, world`houses, jobs, housing
    ensures MarketOf(world, jobs, housing) == Serve(old(MarketOf(world, jobs, housing)), old(world.pops[i]))
    ensures world.pops == old(world.pops[i := Served(MarketOf(world, jobs, housing), world.pops[i])])
  {
    ghost var before, p := MarketOf(world, jobs, housing), world.pops[i];
    AssignJob(world, jobs, housing, i);
    ghost var mid := MarketOf(world, jobs, housing);
    AssignHome(world, jobs, housing, i);
    HomeHalfReadsOriginal(mid, before, p);
  }

  /** The home half reads only the entity and home of the pop, which the
      job half does not change. */
  lemma HomeHalfReadsOriginal(m: Market, s: Market, p: Pop)
    ensures TakeHome(m, WithJob(s, p)) == TakeHome(m, p)
  {
  }

  /** The job half of pop `i`'s turn. */
  method AssignJob(world: World, jobs: JobMarket, housing: HousingMarket, i: nat)
    requires i < |world.pops|
    modifies world`pops, world`workplaces, jobs
    ensures MarketOf(world, jobs, housing) == TakeJob(old(MarketOf(world, jobs, housing)), old(world.pops[i]))
    ensures world.pops == old(world.pops[i := WithJob(MarketOf(world, jobs, housing), world.pops[i])])
  {
    var pop := world.pops[i];
    if pop.job.None? && |jobs.availableJobs| > 0 {
      var offer := jobs.availableJobs[|jobs.availableJobs| - 1];
      jobs.availableJobs := jobs.availableJobs[..|jobs.availableJobs| - 1];
      world.pops := world.pops[i := pop.(job := Some(JobFromOffer(offer)))];
      var found := FindWorkplace(world.workplaces, offer.workplace);
      if found.Some? {
        var w := world.workplaces[found.value];
        world.workplaces := world.workplaces[found.value := w.(employees := w.employees + [pop.entity])];
      }
    }
  }

  /** The home half of pop `i`'s turn. */
  method AssignHome(world: World, jobs: JobMarket, housing: HousingMarket, i: nat)
    requires i < |world.pops|
    modifies world`pops, world`houses, housing
    ensures MarketOf(world, jobs, housing) == TakeHome(old(MarketOf(world, jobs, housing)), old(world.pops[i]))
    ensures world.pops == old(world.pops[i := WithHome(MarketOf(world, jobs, housing), world.pops[i])])
  {
    var pop := world.pops[i];
    if pop.home.None? && |housing.availableHouses| > 0 {
      var offer := housing.availableHouses[|housing.availableHouses| - 1];
      housing.availableHouses := housing.availableHouses[..|housing.availableHouses| - 1];
      world.pops := world.pops[i := pop.(home := Some(offer.house), destination := Some(WorldPosition(offer.position)))];
      var found := FindHouse(world.houses, offer.house);
      if found.Some? {
        var h := world.houses[found.value];
        world.houses := world.houses[found.value := h.(residents := h.residents + [pop.entity])];
      }
    }
  }
}
