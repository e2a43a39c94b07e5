/** The fixed world of the cab-driver environment: its dimensions and cost
    constants, the state and action values, and the travel-time table. */
module CabTypes {

  /** Number of locations. */
  const m: nat := 5
  /** Number of hourly time slots in a day. */
  const t: nat := 24
  /** Number of days in a week. */
  const d: nat := 7
  /** Cost per hour (fuel and other costs). */
  const C: int := 5
  /** Revenue per hour of a ride with a passenger. */
  const R: int := 9

  /** A driver state: location, hour of the day, day of the week. */
  datatype State = State(loc: nat, time: nat, day: nat)

  /** An action: a request to carry a passenger from `pickup` to `drop`. */
  datatype Action = Action(pickup: nat, drop: nat)

  /** The reserved action that accepts no request. */
  const Idle: Action := Action(0, 0)

  predicate ValidState(s: State) {
    s.loc < m && s.time < t && s.day < d
  }

  predicate ValidAction(a: Action) {
    a.pickup < m && a.drop < m
  }

  /** The travel-time table, indexed as [from][to][hour][day], in hours. */
  type Table = seq<seq<seq<seq<nat>>>>

  /** The table has shape [m][m][t][d]. */
  predicate WellShaped(tm: Table) {
    |tm| == m &&
    forall a :: 0 <= a < m ==>
      |tm[a]| == m &&
      forall b :: 0 <= b < m ==>
        |tm[a][b]| == t &&
        forall h :: 0 <= h < t ==> |tm[a][b][h]| == d
  }

  /** Hours to travel from `from` to `to` starting at `hour` on `day`. */
  function Lookup(tm: Table, from: nat, to: nat, hour: nat, day: nat): nat
    requires WellShaped(tm)
    requires from < m && to < m && hour < t && day < d
  {
    tm[from][to][hour][day]
  }

  datatype Option<T> = None | Some(value: T)

  datatype Result<T, E> = Success(value: T) | Failure(error: E)
}
