/** Reward, next state and step of the environment. `Reward` and `NextState`
    each carry their own copy of the three-way case split (idle, pickup at
    the current location, repositioning first); `PlanTrip` is the one
    decomposition both are proved to agree with. */
module Transitions {
  import opened CabTypes
  import opened Clock

  /** The time decomposition of an action taken in a state. */
  datatype Trip =
    | IdleHour
    | Ride(transit: nat, ride: nat)

  /** The inputs that the case split needs: a well-shaped table, and a valid
      state and action unless the action is idle (idle reads no table). */
  predicate CanStep(s: State, a: Action, tm: Table) {
    WellShaped(tm) && (a != Idle ==> ValidState(s) && ValidAction(a))
  }

  /** Idle spends one hour; a pickup at the current location needs no
      transit; otherwise the driver first travels to the pickup, and the ride
      time is read at the hour and day of arrival there. */
  function PlanTrip(s: State, a: Action, tm: Table): (trip: Trip)
    requires CanStep(s, a, tm)
    ensures trip.IdleHour? <==> a == Idle
    ensures trip.Ride? && s.loc == a.pickup ==> trip.transit == 0
    ensures trip.Ride? && s.loc != a.pickup ==>
      trip.transit == Lookup(tm, s.loc, a.pickup, s.time, s.day)
    ensures trip.Ride? ==>
      var (pickupTime, pickupDay) := NewTimeAndDay(s.time, s.day, trip.transit);
      pickupTime < t && pickupDay < d &&
      trip.ride == Lookup(tm, a.pickup, a.drop, pickupTime, pickupDay)
  {
    if a == Idle then IdleHour
    else if s.loc == a.pickup then
      Ride(0, Lookup(tm, s.loc, a.drop, s.time, s.day))
    else
      var transit := Lookup(tm, s.loc, a.pickup, s.time, s.day);
      var (pickupTime, pickupDay) := NewTimeAndDay(s.time, s.day, transit);
      Ride(transit, Lookup(tm, a.pickup, a.drop, pickupTime, pickupDay))
  }

  /** Hours a trip takes from the start state to the drop. */
  function Elapsed(trip: Trip): nat {
    match trip
    case IdleHour => 1
    case Ride(transit, ride) => transit + ride
  }

  /** Hours of a trip spent carrying a passenger. */
  function RideHours(trip: Trip): nat {
    match trip
    case IdleHour => 0
    case Ride(_, ride) => ride
  }

  /** The reward: idling costs C; a ride earns R per ride hour and costs C
      per hour of transit and ride. */
  function Reward(s: State, a: Action, tm: Table): (r: int)
    requires CanStep(s, a, tm)
    ensures r == R * RideHours(PlanTrip(s, a, tm)) - C * Elapsed(PlanTrip(s, a, tm))
    ensures a == Idle ==> r == -C
    ensures a != Idle && s.loc == a.pickup ==>
      r == (R - C) * Lookup(tm, s.loc, a.drop, s.time, s.day) && r >= 0
  {
    var (pickupTransit, ride) :=
      if a != Idle && s.loc == a.pickup then
        (0, Lookup(tm, s.loc, a.drop, s.time, s.day))
      else if a != Idle && s.loc != a.pickup then
        var transit := Lookup(tm, s.loc, a.pickup, s.time, s.day);
        var (pickupTime, pickupDay) := NewTimeAndDay(s.time, s.day, transit);
        (transit, Lookup(tm, a.pickup, a.drop, pickupTime, pickupDay))
      else
        (0, 0);
    if a == Idle then -C
    else R * ride - C * (pickupTransit + ride)
  }

  /** The next state and the hours elapsed: the driver ends at the drop (or
      stays put when idle), with the clock advanced from the start by the
      whole trip. */
  function NextState(s: State, a: Action, tm: Table): (r: (State, nat))
    requires CanStep(s, a, tm)
    ensures r.1 == Elapsed(PlanTrip(s, a, tm))
    ensures a == Idle ==> r.0.loc == s.loc && r.1 == 1
    ensures a != Idle ==> r.0.loc == a.drop
    ensures r.0.time < t && (s.day < d ==> r.0.day < d)
    ensures ValidState(s) && ValidAction(a) ==> ValidState(r.0)
    ensures s.time < t && s.day < d ==>
      HourOfWeek(r.0.time, r.0.day) == (HourOfWeek(s.time, s.day) + r.1) % WeekHours
  {
    var (idle, pickupTransit, ride) :=
      if a != Idle && s.loc == a.pickup then
        (0, 0, Lookup(tm, s.loc, a.drop, s.time, s.day))
      else if a != Idle && s.loc != a.pickup then
        var transit := Lookup(tm, s.loc, a.pickup, s.time, s.day);
        var (pickupTime, pickupDay) := NewTimeAndDay(s.time, s.day, transit);
        (0, transit, Lookup(tm, a.pickup, a.drop, pickupTime, pickupDay))
      else
        (1, 0, 0);
    var dropLocation := if a == Idle then s.loc else a.drop;
    var total := idle + pickupTransit + ride;
    var (endTime, endDay) := NewTimeAndDay(s.time, s.day, total);
    (State(dropLocation, endTime, endDay), total)
  }

  /** The step result: next state, reward and hours elapsed. */
  datatype Step = Step(next: State, reward: int, elapsed: nat)

  /** One step of the environment: the next state and elapsed hours of
      NextState with the reward of Reward, on the same inputs. */
  function TakeStep(s: State, a: Action, tm: Table): (r: Step)
    requires CanStep(s, a, tm)
    ensures (r.next, r.elapsed) == NextState(s, a, tm)
    ensures r.reward == Reward(s, a, tm)
    ensures r.reward == R * RideHours(PlanTrip(s, a, tm)) - C * r.elapsed
    ensures -C * r.elapsed <= r.reward <= (R - C) * r.elapsed
  {
    var (next, elapsed) := NextState(s, a, tm);
    var reward := Reward(s, a, tm);
    Step(next, reward, elapsed)
  }

  /** After repositioning, the clock at the drop is the clock at the pickup
      advanced by the ride: advancing the start by transit + ride at once is
      the same as advancing by the transit and then by the ride. */
  lemma RepositionArrival(s: State, a: Action, tm: Table)
    requires CanStep(s, a, tm) && ValidState(s)
    requires a != Idle && s.loc != a.pickup
    ensures var transit := Lookup(tm, s.loc, a.pickup, s.time, s.day);
      var (pickupTime, pickupDay) := NewTimeAndDay(s.time, s.day, transit);
      var next := NextState(s, a, tm).0;
      (next.time, next.day)
        == NewTimeAndDay(pickupTime, pickupDay, Lookup(tm, a.pickup, a.drop, pickupTime, pickupDay))
  {
    var transit := Lookup(tm, s.loc, a.pickup, s.time, s.day);
    var (pickupTime, pickupDay) := NewTimeAndDay(s.time, s.day, transit);
    var ride := Lookup(tm, a.pickup, a.drop, pickupTime, pickupDay);
    AdvanceCompose(s.time, s.day, transit, ride);
  }

  /** Idling from a valid state moves the clock forward by exactly one hour
      and keeps the location. */
  lemma IdleStep(s: State, tm: Table)
    requires WellShaped(tm) && ValidState(s)
    ensures var r := TakeStep(s, Idle, tm);
      r.reward == -C && r.elapsed == 1 &&
      r.next == State(s.loc, (s.time + 1) % t, if s.time + 1 == t then (s.day + 1) % d else s.day)
  {
    RolloverClosedForm(s.time, s.day, 1);
  }
}
