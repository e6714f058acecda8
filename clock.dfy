/** The game clock: a tick counter that advances only while not paused, the day
    and hour derived from it, and the speed multiplier the keyboard halves and
    doubles between 1 and 512. */
module Clock {
  import opened Ints
  import opened Reals

  const MIN_SPEED: u32 := 1
  const MAX_SPEED: u32 := 512

  /** The speed after the Z key: half the old speed, rounded down, but never
      below 1. */
  function Halved(speed: u32): (r: u32)
    ensures MIN_SPEED <= r
    ensures speed >= 2 ==> 2 * r <= speed <= 2 * r + 1
    ensures speed < 2 ==> r == MIN_SPEED
  {
    Max(speed / 2, MIN_SPEED)
  }

  /** The speed after the X key: twice the old speed (saturating in `u32`),
      but never above 512. */
  function Doubled(speed: u32): (r: u32)
    ensures r <= MAX_SPEED
    ensures 2 * speed <= MAX_SPEED ==> r == 2 * speed
    ensures 2 * speed > MAX_SPEED ==> r == MAX_SPEED
  {
    Min(SatMulU32(speed, 2), MAX_SPEED)
  }

  predicate SpeedInRange(speed: u32) { MIN_SPEED <= speed <= MAX_SPEED }

  /** Z and X keep a speed inside [1, 512]. */
  lemma SpeedKeysStayInRange(speed: u32)
    requires SpeedInRange(speed)
    ensures SpeedInRange(Halved(speed))
    ensures SpeedInRange(Doubled(speed))
    ensures Halved(speed) <= speed <= Doubled(speed)
  {
  }

  /** Halving undoes a doubling that did not hit the ceiling, and doubling
      undoes the halving of an even speed. */
  lemma HalvedDoubledRoundTrip(speed: u32)
    ensures 1 <= speed <= MAX_SPEED / 2 ==> Halved(Doubled(speed)) == speed
    ensures 2 <= speed <= MAX_SPEED && speed % 2 == 0 ==> Doubled(Halved(speed)) == speed
  {
  }

  class GameClock {
    var currentTick: nat
    var ticksPerHour: nat
    var hoursPerDay: nat
    var speed: u32
    var paused: bool

    /** Hours and days are positive; `hour()` and `day()` divide by their
        product. */
    ghost predicate Valid()
      reads this
    {
      ticksPerHour > 0 && hoursPerDay > 0
    }

    /** The default clock: tick 0, 60 ticks per hour, 24 hours per day, speed 1,
        running. */
    constructor ()
      ensures Valid()
      ensures currentTick == 0 && ticksPerHour == 60 && hoursPerDay == 24
      ensures speed == 1 && !paused
    {
      currentTick := 0;
      ticksPerHour := 60;
      hoursPerDay := 24;
      speed := 1;
      paused := false;
    }

    /** Advances the counter by one unless the clock is paused; nothing else
        changes. */
    method Tick()
      modifies this
      ensures currentTick == if old(paused) then old(currentTick) else old(currentTick) + 1
      ensures paused == old(paused) && speed == old(speed)
      ensures ticksPerHour == old(ticksPerHour) && hoursPerDay == old(hoursPerDay)
    {
      if !paused {
        currentTick := currentTick + 1;
      }
    }

    method TogglePause()
      modifies this
      ensures paused == !old(paused)
      ensures currentTick == old(currentTick) && speed == old(speed)
      ensures ticksPerHour == old(ticksPerHour) && hoursPerDay == old(hoursPerDay)
    {
      paused := !paused;
    }

    function TicksPerDay(): (n: nat)
      reads this
      requires Valid()
      ensures n >= ticksPerHour && n >= hoursPerDay && n > 0
    {
      ticksPerHour * hoursPerDay
    }

    /** The day number, counting from 1: the current tick lies in the day's
        span of ticks. */
    function Day(): (d: nat)
      reads this
      requires Valid()
      ensures d >= 1
      ensures (d - 1) * TicksPerDay() <= currentTick < d * TicksPerDay()
    {
      var n := TicksPerDay();
      DivisionBounds(currentTick, n);
      currentTick / n + 1
    }

    /** The tick within the current day. */
    function TickOfDay(): (t: nat)
      reads this
      requires Valid()
      ensures t < TicksPerDay()
      ensures (Day() - 1) * TicksPerDay() + t == currentTick
    {
      currentTick % TicksPerDay()
    }

    /** The hour of the day as a fraction: it lies in [0, hoursPerDay) and
        counts the ticks of the day in units of an hour. */
    function Hour(): (h: real)
      reads this
      requires Valid()
      ensures 0.0 <= h < hoursPerDay as real
      ensures h * ticksPerHour as real == TickOfDay() as real
    {
      var t := TickOfDay();
      HourBound(t, ticksPerHour, hoursPerDay);
      t as real / ticksPerHour as real
    }

    /** Applies one frame of key presses: Z halves, X doubles (both read the
        speed from before the frame, so X wins when both are pressed), and
        Space toggles the pause. */
    method HandleSpeedInput(zPressed: bool, xPressed: bool, spacePressed: bool)
      modifies this
      ensures speed == if xPressed then Doubled(old(speed))
                       else if zPressed then Halved(old(speed))
                       else old(speed)
      ensures paused == (old(paused) != spacePressed)
      ensures currentTick == old(currentTick)
      ensures ticksPerHour == old(ticksPerHour) && hoursPerDay == old(hoursPerDay)
    {
      var s := speed;
      if zPressed {
        speed := Halved(s);
      }
      if xPressed {
        speed := Doubled(s);
      }
      if spacePressed {
        TogglePause();
      }
    }
  }

  lemma DivisionBounds(t: nat, n: nat)
    requires n > 0
    ensures (t / n) * n <= t < (t / n + 1) * n
  {
    assert t == (t / n) * n + t % n;
  }

  lemma HourBound(t: nat, tph: nat, hpd: nat)
    requires tph > 0 && t < tph * hpd
    ensures 0.0 <= t as real / tph as real < hpd as real
  {
    var q := t as real / tph as real;
    assert q * tph as real == t as real;
    assert (tph * hpd) as real == tph as real * hpd as real;
    ScaleMonotone(hpd as real, q, tph as real);
  }

  /** Comparing an hour with 9 and 17 is comparing its ticks with 9 and 17 hours
      of ticks. */
  lemma WindowInTicks(h: real, tph: nat, t: nat)
    requires tph > 0 && h * tph as real == t as real
    ensures (9.0 <= h && h < 17.0) <==> (9 * tph <= t < 17 * tph)
  {
    ScaleMonotone(9.0, h, tph as real);
    ScaleMonotone(h, 17.0, tph as real);
    assert (9 * tph) as real == 9.0 * tph as real;
    assert (17 * tph) as real == 17.0 * tph as real;
  }

  /** The workday test on the fractional hour, `9.0 <= hour() < 17.0`, is the
      integer test `9 * ticksPerHour <= tick of day < 17 * ticksPerHour`. */
  lemma WorkdayWindowOnTicks(c: GameClock)
    requires c.Valid()
    ensures (9.0 <= c.Hour() && c.Hour() < 17.0)
        <==> (9 * c.ticksPerHour <= c.TickOfDay() < 17 * c.ticksPerHour)
  {
    WindowInTicks(c.Hour(), c.ticksPerHour, c.TickOfDay());
  }

  /** Pausing twice gives the clock back its old pause state. */
  method ToggleTwiceRestores(c: GameClock)
    modifies c
    ensures c.paused == old(c.paused) && c.currentTick == old(c.currentTick)
  {
    c.TogglePause();
    c.TogglePause();
  }

  /** A default clock that runs for 1500 ticks is at day 2, hour 1. */
  method DefaultClockAfter1500Ticks() returns (day: nat, hour: real)
    ensures day == 2 && hour == 1.0
  {
    var c := new GameClock();
    var i := 0;
    while i < 1500
      invariant 0 <= i <= 1500
      invariant c.Valid() && !c.paused && c.currentTick == i
      invariant c.ticksPerHour == 60 && c.hoursPerDay == 24
    {
      c.Tick();
      i := i + 1;
    }
    day := c.Day();
    hour := c.Hour();
  }
}
