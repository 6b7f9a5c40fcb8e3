/**
 * The day-night clock (src/system/dayNight.ts): game time in milliseconds is
 * split into hours, minutes and seconds, and every hourly trigger sends its
 * entity towards a random spot whenever the hour changes.
 */
module DayNight {
  import opened Wrappers
  import opened JsNumbers
  import opened Randomness
  import opened Components

  const MS_IN_A_SECOND: int := 1000
  const MS_IN_A_MINUTE: int := 60 * MS_IN_A_SECOND
  const MS_IN_AN_HOUR: int := 60 * MS_IN_A_MINUTE
  const HOURS_IN_A_DAY: int := 24
  /** Game time runs this many times faster than the frame clock. */
  const TIME_MULTIPLIER: int := 250

  datatype HMS = HMS(hours: int, minutes: int, seconds: int)

  /** The hour count before it is reduced to a day: the time floor-divided by the length of an hour. */
  function HourCount(t: int): (h: int)
    ensures h * MS_IN_AN_HOUR <= t < h * MS_IN_AN_HOUR + MS_IN_AN_HOUR
  {
    FloorDiv(t, MS_IN_AN_HOUR)
  }

  /** `msToHMS`: floor divisions by hour, minute and second, then the hours `% 24` with JavaScript's sign rule. */
  function MsToHMS(t: int): (h: HMS)
    ensures 0 <= h.minutes < 60 && 0 <= h.seconds < 60
    ensures -HOURS_IN_A_DAY < h.hours < HOURS_IN_A_DAY
    ensures h.hours == JsRem(HourCount(t), HOURS_IN_A_DAY)
  {
    var hours := HourCount(t);
    var minutesRemaining := t - hours * MS_IN_AN_HOUR;
    var minutes := FloorDiv(minutesRemaining, MS_IN_A_MINUTE);
    var secondsRemaining := minutesRemaining - minutes * MS_IN_A_MINUTE;
    var seconds := FloorDiv(secondsRemaining, MS_IN_A_SECOND);
    HMS(JsRem(hours, HOURS_IN_A_DAY), minutes, seconds)
  }

  /**
   * The hour count, minutes and seconds add up to `t` less the milliseconds
   * below a second.
   */
  lemma Decomposition(t: int)
    ensures var h := MsToHMS(t);
      var whole := HourCount(t) * MS_IN_AN_HOUR + h.minutes * MS_IN_A_MINUTE + h.seconds * MS_IN_A_SECOND;
      whole <= t < whole + MS_IN_A_SECOND
  {
  }

  /** Minutes and seconds are the usual clock digits of `t`, for negative `t` too. */
  lemma ClockDigits(t: int)
    ensures MsToHMS(t).minutes == FloorDiv(t, MS_IN_A_MINUTE) % 60
    ensures MsToHMS(t).seconds == FloorDiv(t, MS_IN_A_SECOND) % 60
  {
    var hours := HourCount(t);
    var m := FloorDiv(t - hours * MS_IN_AN_HOUR, MS_IN_A_MINUTE);
    var rest := t - hours * MS_IN_AN_HOUR - m * MS_IN_A_MINUTE;
    assert t == (hours * 60 + m) * MS_IN_A_MINUTE + rest;
    assert FloorDiv(t, MS_IN_A_MINUTE) == hours * 60 + m by {
      DivModUnique(t, MS_IN_A_MINUTE, hours * 60 + m, rest);
    }
    DivModUnique(hours * 60 + m, 60, hours, m);
    var s := FloorDiv(rest, MS_IN_A_SECOND);
    var ms := rest - s * MS_IN_A_SECOND;
    assert t == ((hours * 60 + m) * 60 + s) * MS_IN_A_SECOND + ms;
    DivModUnique(t, MS_IN_A_SECOND, (hours * 60 + m) * 60 + s, ms);
    DivModUnique((hours * 60 + m) * 60 + s, 60, hours * 60 + m, s);
  }

  /** From time zero on, the hours are the hour of the day. */
  lemma NonNegativeTime(t: int)
    requires t >= 0
    ensures MsToHMS(t).hours == (t / MS_IN_AN_HOUR) % HOURS_IN_A_DAY
    ensures 0 <= MsToHMS(t).hours < HOURS_IN_A_DAY
  {
  }

  /** Before time zero the hours are never positive: JavaScript's `%` keeps the sign of the hour count. */
  lemma NegativeTime(t: int)
    requires t < 0
    ensures MsToHMS(t).hours <= 0
    ensures MsToHMS(t).hours == 0 <==> HourCount(t) % HOURS_IN_A_DAY == 0
  {
    var n := HourCount(t);
    assert n < 0;
    assert JsRem(n, HOURS_IN_A_DAY) == -((-n) % HOURS_IN_A_DAY);
    SignedModZero(n, HOURS_IN_A_DAY);
  }

  lemma SignedModZero(n: int, d: int)
    requires n < 0 && d > 0
    ensures (-n) % d == 0 <==> n % d == 0
  {
    if n % d == 0 {
      var q := n / d;
      assert -n == (-q) * d;
      DivModUnique(-n, d, -q, 0);
    }
    if (-n) % d == 0 {
      var q := (-n) / d;
      assert n == (-q) * d;
      DivModUnique(n, d, -q, 0);
    }
  }

  /** The clock's starting value, `msToHMS(-1)`. */
  lemma InitialTime()
    ensures MsToHMS(-1) == HMS(-1, 59, 59)
  {
    assert HourCount(-1) == -1;
  }

  /** "Bad Time!": some component of the clock is negative. */
  predicate BadTime(h: HMS)
  {
    h.hours < 0 || h.minutes < 0 || h.seconds < 0
  }

  /** The time is bad exactly when it is before zero and the floored hour count is not a multiple of 24. */
  lemma BadTimeIff(t: int)
    ensures BadTime(MsToHMS(t)) <==> t < 0 && HourCount(t) % HOURS_IN_A_DAY != 0
  {
    if t < 0 {
      NegativeTime(t);
    }
  }

  /** A negative time in the first hour of a day is not bad: its hour count is −24 and `-24 % 24` is zero. */
  lemma FirstHourOfDayNotBad()
    ensures HourCount(-86_399_999) == -24
    ensures !BadTime(MsToHMS(-86_399_999))
  {
    DivModUnique(-86_399_999, MS_IN_AN_HOUR, -24, 1);
    BadTimeIff(-86_399_999);
  }

  /** The trigger `dayNightSystem` acts on. */
  predicate Acts(trigger: TimeTrigger)
  {
    trigger.frequency == "hourly" && trigger.action == "moveToRandomLocation"
  }

  /** A `path` component added to an entity: where it is sent. */
  datatype PathTarget = PathTarget(entity: int, x: int, y: int, z: int)

  /** A random offset: a draw scaled to ten, floored, and shifted down by five. */
  function Offset(r: Unit): (k: int)
    ensures -5 <= k < 5
  {
    Scaled(r, 10) - 5
  }

  /** How many of the triggers act. */
  function ActingCount(triggers: seq<(int, TimeTrigger)>): nat
  {
    if triggers == [] then 0 else (if Acts(triggers[0].1) then 1 else 0) + ActingCount(triggers[1..])
  }

  /**
   * The paths set when the hour changes, in the order the triggerable
   * entities are found; each acting trigger draws `x` and then `z`.
   */
  function MoveTargets(triggers: seq<(int, TimeTrigger)>, values: nat -> Unit, drawn: nat): (ps: seq<PathTarget>)
    ensures |ps| <= |triggers|
    ensures forall i :: 0 <= i < |ps| ==> -5 <= ps[i].x < 5 && ps[i].y == 1 && -5 <= ps[i].z < 5
  {
    if triggers == [] then []
    else if Acts(triggers[0].1) then
      [PathTarget(triggers[0].0, Offset(values(drawn)), 1, Offset(values(drawn + 1)))] + MoveTargets(triggers[1..], values, drawn + 2)
    else MoveTargets(triggers[1..], values, drawn)
  }

  /**
   * One path per acting trigger, in order, each within five cells of the
   * origin at height 1, and none for a trigger that does not act.
   */
  lemma {:induction false} MoveTargetsEffect(triggers: seq<(int, TimeTrigger)>, values: nat -> Unit, drawn: nat)
    ensures |MoveTargets(triggers, values, drawn)| == ActingCount(triggers)
    ensures forall p :: p in MoveTargets(triggers, values, drawn) ==>
      -5 <= p.x < 5 && p.y == 1 && -5 <= p.z < 5 &&
      exists i :: 0 <= i < |triggers| && triggers[i].0 == p.entity && Acts(triggers[i].1)
  {
    if triggers != [] {
      var next := if Acts(triggers[0].1) then drawn + 2 else drawn;
      MoveTargetsEffect(triggers[1..], values, next);
      forall p | p in MoveTargets(triggers, values, drawn)
        ensures exists i :: 0 <= i < |triggers| && triggers[i].0 == p.entity && Acts(triggers[i].1)
      {
        if p !in MoveTargets(triggers[1..], values, next) {
          assert triggers[0].0 == p.entity && Acts(triggers[0].1);
        } else {
          var i :| 0 <= i < |triggers[1..]| && triggers[1..][i].0 == p.entity && Acts(triggers[1..][i].1);
          assert triggers[i + 1] == triggers[1..][i];
        }
      }
    }
  }

  /** Without an acting trigger nothing moves. */
  lemma {:induction false} NoActingTrigger(triggers: seq<(int, TimeTrigger)>, values: nat -> Unit, drawn: nat)
    requires forall i :: 0 <= i < |triggers| ==> !Acts(triggers[i].1)
    ensures MoveTargets(triggers, values, drawn) == []
  {
    if triggers != [] {
      assert forall i :: 0 <= i < |triggers[1..]| ==> triggers[1..][i] == triggers[i + 1];
      NoActingTrigger(triggers[1..], values, drawn);
    }
  }

  /** The module-level `time` and `hms` of src/system/dayNight.ts. */
  class Clock {
    var time: int
    var hms: HMS

    /** The clock starts one millisecond before midnight, with the hours, minutes and seconds of that time. */
    constructor ()
      ensures time == -1 && hms == MsToHMS(-1)
    {
      time := -1;
      hms := MsToHMS(-1);
    }

    /**
     * `dayNightSystem(entities, deltaTime)`: `triggers` are the time triggers
     * of the entities the `triggerable` search finds, in order; the result is
     * the paths set on them, or the "Bad Time!" error.
     */
    method Tick(triggers: seq<(int, TimeTrigger)>, rng: RandomSource, deltaTime: int) returns (r: Result<seq<PathTarget>>)
      modifies this, rng
      ensures time == old(time) + deltaTime
      ensures var h := MsToHMS(time * TIME_MULTIPLIER);
        if BadTime(h) then
          r == Failure("Bad Time!") && hms == old(hms) && rng.drawn == old(rng.drawn)
        else
          hms == h &&
          if h.hours != old(hms.hours) then
            r == Success(MoveTargets(triggers, rng.values, old(rng.drawn))) && rng.drawn == old(rng.drawn) + 2 * ActingCount(triggers)
          else
            r == Success([]) && rng.drawn == old(rng.drawn)
    {
      time := time + deltaTime;
      var h := MsToHMS(time * TIME_MULTIPLIER);
      if h.hours < 0 || h.minutes < 0 || h.seconds < 0 {
        return Failure("Bad Time!");
      }
      var paths: seq<PathTarget> := [];
      if h.hours != hms.hours {
        paths := MoveAll(triggers, rng);
      }
      hms := h;
      r := Success(paths);
    }
  }

  /** The `forEach` over the triggerable entities: a path for each acting trigger, two draws each. */
  method MoveAll(triggers: seq<(int, TimeTrigger)>, rng: RandomSource) returns (paths: seq<PathTarget>)
    modifies rng
    ensures paths == MoveTargets(triggers, rng.values, old(rng.drawn))
    ensures rng.drawn == old(rng.drawn) + 2 * ActingCount(triggers)
  {
    paths := [];
    var i := 0;
    while i < |triggers|
      invariant 0 <= i <= |triggers|
      invariant paths + MoveTargets(triggers[i..], rng.values, rng.drawn) == MoveTargets(triggers, rng.values, old(rng.drawn))
      invariant rng.drawn + 2 * ActingCount(triggers[i..]) == old(rng.drawn) + 2 * ActingCount(triggers)
    {
      var step := MoveOne(triggers, i, rng);
      paths := paths + step;
      i := i + 1;
    }
  }

  /** One turn of the `forEach`: an acting trigger draws `x` and then `z` and yields its path. */
  method MoveOne(triggers: seq<(int, TimeTrigger)>, i: int, rng: RandomSource) returns (step: seq<PathTarget>)
    requires 0 <= i < |triggers|
    modifies rng
    ensures step + MoveTargets(triggers[i + 1..], rng.values, rng.drawn) == MoveTargets(triggers[i..], rng.values, old(rng.drawn))
    ensures rng.drawn + 2 * ActingCount(triggers[i + 1..]) == old(rng.drawn) + 2 * ActingCount(triggers[i..])
  {
    var (id, trigger) := triggers[i];
    MoveStep(triggers, i, rng.values, rng.drawn);
    step := [];
    if trigger.frequency == "hourly" && trigger.action == "moveToRandomLocation" {
      var rx := rng.Random();
      var rz := rng.Random();
      step := [PathTarget(id, Scaled(rx, 10) - 5, 1, Scaled(rz, 10) - 5)];
    }
  }

  /** One trigger of the search: its path, if it acts, comes before the paths of the triggers after it. */
  lemma MoveStep(triggers: seq<(int, TimeTrigger)>, i: int, values: nat -> Unit, drawn: nat)
    requires 0 <= i < |triggers|
    ensures MoveTargets(triggers[i..], values, drawn) ==
      if Acts(triggers[i].1) then
        [PathTarget(triggers[i].0, Offset(values(drawn)), 1, Offset(values(drawn + 1)))] + MoveTargets(triggers[i + 1..], values, drawn + 2)
      else MoveTargets(triggers[i + 1..], values, drawn)
    ensures ActingCount(triggers[i..]) == (if Acts(triggers[i].1) then 1 else 0) + ActingCount(triggers[i + 1..])
  {
    assert triggers[i..][1..] == triggers[i + 1..];
  }
}
