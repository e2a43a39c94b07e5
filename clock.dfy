/** Hour and day rollover: advancing a (time, day) pair by a number of hours. */
module Clock {
  import opened CabTypes

  /** Position of (time, day) within the week, in hours. */
  function HourOfWeek(time: nat, day: nat): nat {
    day * t + time
  }

  /** Hours in a week. */
  const WeekHours: nat := t * d

  /** Moves the clock forward by `elapsed` hours. Without crossing midnight the
      day is kept as given; otherwise the hour wraps modulo 24 and the day
      advances by the number of whole days passed, modulo 7. */
  function NewTimeAndDay(time: nat, day: nat, elapsed: nat): (r: (nat, nat))
    ensures r.0 < t
    ensures day < d ==> r.1 < d
    ensures time < t && day < d ==>
      HourOfWeek(r.0, r.1) == (HourOfWeek(time, day) + elapsed) % WeekHours
    ensures time < t && elapsed == 0 ==> r == (time, day)
  {
    var total := time + elapsed;
    if total < t then
      assert time < t && day < d ==> HourOfWeek(total, day) < WeekHours;
      (total, day)
    else
      WeekPosition(time, day, total);
      (total % t, (day + total / t) % d)
  }

  /** The rolled-over pair sits at the right hour of the week. */
  lemma WeekPosition(time: nat, day: nat, total: nat)
    ensures HourOfWeek(total % t, (day + total / t) % d) == (day * t + total) % WeekHours
  {
    var newTime, x := total % t, day + total / t;
    var q, newDay := x / d, x % d;
    assert total == t * (total / t) + newTime;
    assert x == d * q + newDay;
    assert day * t + total == q * WeekHours + (newDay * t + newTime);
    ModAfterWeeks(q, newDay * t + newTime);
  }

  /** Adding whole weeks does not move the hour of the week. */
  lemma ModAfterWeeks(k: nat, v: nat)
    requires v < WeekHours
    ensures (k * WeekHours + v) % WeekHours == v
  {
  }

  /** For a valid clock the two branches agree with one closed form. */
  lemma RolloverClosedForm(time: nat, day: nat, elapsed: nat)
    requires time < t && day < d
    ensures NewTimeAndDay(time, day, elapsed)
      == ((time + elapsed) % t, (day + (time + elapsed) / t) % d)
  {
  }

  /** A valid clock is determined by its hour of the week. */
  lemma HourOfWeekInjective(t1: nat, d1: nat, t2: nat, d2: nat)
    requires t1 < t && d1 < d && t2 < t && d2 < d
    requires HourOfWeek(t1, d1) == HourOfWeek(t2, d2)
    ensures t1 == t2 && d1 == d2
  {
  }

  /** Rolling over by a and then by b is rolling over by a + b. */
  lemma AdvanceCompose(time: nat, day: nat, a: nat, b: nat)
    requires time < t && day < d
    ensures var (t1, d1) := NewTimeAndDay(time, day, a);
      NewTimeAndDay(t1, d1, b) == NewTimeAndDay(time, day, a + b)
  {
    var (t1, d1) := NewTimeAndDay(time, day, a);
    var (t2, d2) := NewTimeAndDay(t1, d1, b);
    var (t3, d3) := NewTimeAndDay(time, day, a + b);
    var h := HourOfWeek(time, day);
    var w := WeekHours;
    assert HourOfWeek(t2, d2) == (HourOfWeek(t1, d1) + b) % w;
    assert HourOfWeek(t1, d1) == (h + a) % w;
    assert HourOfWeek(t3, d3) == (h + a + b) % w;
    ModSum(h + a, b);
    HourOfWeekInjective(t2, d2, t3, d3);
  }

  /** ((x % w) + y) % w == (x + y) % w for the week length w. */
  lemma ModSum(x: nat, y: nat)
    ensures ((x % WeekHours) + y) % WeekHours == (x + y) % WeekHours
  {
  }
}
