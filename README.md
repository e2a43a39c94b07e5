# Cab-driver environment model

A Dafny model of the environment of a cab-driver reinforcement-learning
agent (class `CabDriver` in `Env.py`). The world has `m = 5` locations,
`t = 24` hourly slots and `d = 7` days; a state is `(location, hour, day)`.
An action is a `(pickup, drop)` pair, and `(0, 0)` means idling for one hour.
The model covers:

- the construction of the action space, which removes diagonal pairs in
  place from the list of all pairs (`ActionSpaces.BuildActionSpace`);
- the state space and the one-hot state encoding (`StateSpaces`);
- the assembly of a request batch from a capped request count and a sample
  of action indices (`RequestBatch.Requests`);
- hour and day rollover (`Clock.NewTimeAndDay`);
- reward, next state and step, each with the case split of the source:
  idle, pickup where the driver stands, or repositioning first
  (`Transitions`);
- the environment object itself (`Driver.CabDriver`).

The travel-time table is a parameter `tm: seq<seq<seq<seq<nat>>>>` of shape
`[5][5][24][7]` (`CabTypes.WellShaped`). Every lookup carries its bounds
obligation. In particular, the ride lookup after repositioning is in bounds
only because rollover keeps the hour below 24 and the day below 7.

Points of the code that the model keeps as written:

- The loop at Env.py:29 walks `l3[1:]`, so `[0, 0]` survives at index 0
  as the idle action.
- The comment at Env.py:56 gives the day offset as `m + d`. The code uses
  `m + t`, and so does the model.
- For a valid clock, advancing by transit + ride equals advancing by the
  transit and then by the ride (`Clock.AdvanceCompose`,
  `Transitions.RepositionArrival`).
- The source validates no state or action. Invalid inputs are excluded by
  preconditions, except in the idle case: idle reads no table, so
  `Transitions.CanStep` puts no range condition on an idle step.
- A request count above the 20 non-idle actions cannot reach
  `random.sample`, because the cap is 15 (`RequestBatch.CapRequests`).

## Model

| member | source | states |
|---|---|---|
| `Clock.NewTimeAndDay` | Env.py:98-117 | The new hour is below 24. A valid day stays below 7. For a valid clock, the hour of the week moves forward by exactly the elapsed hours, modulo 168. For an hour below 24, zero elapsed hours leave the clock unchanged. |
| `Clock.RolloverClosedForm` | Env.py:103-117 | For a valid clock, both branches give `((time+e) % 24, (day + (time+e)/24) % 7)`. |
| `Clock.AdvanceCompose` | Env.py:98-117 | Rolling over by a and then by b equals rolling over by a + b. |
| `ActionSpaces.Product` | Env.py:23-27 | The Cartesian product of the locations with themselves has m*m = 25 pairs. |
| `ActionSpaces.ProductAt` | Env.py:23-27 | Every valid pair (i, j) occurs in the product, at position i*m + j. |
| `ActionSpaces.RemoveFirst` | Env.py:31 | `list.remove` of an element that is present shortens the list by exactly one. |
| `ActionSpaces.RemoveFirstMultiset` | Env.py:31 | `list.remove` takes away exactly one copy of the element and keeps every other element. |
| `ActionSpaces.RemoveFirstAt` | Env.py:31 | `list.remove` of an element whose first occurrence is at position n splices out exactly position n. |
| `ActionSpaces.ActionAt` | Env.py:23-35 | Reference enumeration of the action space: every entry is a valid pair, index 0 alone is idle, and every other index is an off-diagonal pair. |
| `ActionSpaces.BuildActionSpace` | Env.py:23-35 | Removing the diagonal pairs in place while walking `l3[1:]` leaves 21 = m*(m-1)+1 entries, equal to the reference enumeration at every index: `[0,0]` first, then the off-diagonal pairs. |
| `ActionSpaces.WalkStep` | Env.py:29-31 | One iteration of the walk over `l3[1:]`: a diagonal pair is still in the list and `remove` takes out the copy just reached; any other pair is already at its place in the reference enumeration. |
| `ActionSpaces.ActionIndexRoundTrip` | Env.py:25-31 | Pair-to-index and index-to-pair are inverse on the 20 non-idle actions. |
| `ActionSpaces.ActionAtOrdered` | Env.py:25-31 | Indices 1..20 hold strictly increasing pairs in lexicographic order, so no pair occurs twice. |
| `ActionSpaces.ActionAtComplete` | Env.py:25-31 | Every pair of distinct locations occurs at some index in 1..20. |
| `StateSpaces.StateSpace` | Env.py:36 | There are m*t*d = 840 entries, and every one is a valid state. |
| `StateSpaces.StateSpaceAt` | Env.py:36 | The triple at position i*t*d + j*d + k is `[i, j, k]`, for every valid triple. |
| `StateSpaces.StateSpaceIndexed` | Env.py:36 | Every entry sits at its own index, so no state is listed twice. |
| `StateSpaces.EncodeState` | Env.py:46-59 | The encoding has length m+t+d = 36. It holds 1 exactly at the location, at m + hour and at m + t + day, and 0 elsewhere. It equals the three side-by-side one-hot blocks. |
| `StateSpaces.OneHotOnes` | Env.py:50-57 | The encoding of a valid state has exactly three ones. |
| `StateSpaces.OneHotInjective` | Env.py:50-57 | Distinct valid states have distinct encodings. |
| `RequestBatch.RequestMean` | Env.py:76-85 | Locations 0..4 have a Poisson mean (15 at location 1). Any other location has none, so no count is drawn there. |
| `RequestBatch.CapRequests` | Env.py:86-90 | The capped count is at most the draw and at most 15. It equals the draw when the draw is at most 15, and exactly 15 when the draw is above 15. It never exceeds the 20 non-idle actions that are sampled from. |
| `RequestBatch.Requests` | Env.py:72-95 | A location without a request mean fails, because the count is never assigned. Otherwise the index list has length 1 + min(n, 15), starts with 0 and continues with the sample. Every action is the action-space entry at its index. The first action is idle, the others are off-diagonal, and all actions are distinct. |
| `Transitions.PlanTrip` | Env.py:145-156 | The shared case split: the trip is idle exactly for `[0, 0]`. Transit is 0 at the pickup location; otherwise it is the table's time from the location to the pickup. The ride is the table's time from pickup to drop, read at the start clock rolled forward by the transit; that clock is always a valid (hour, day) index into the table. |
| `Transitions.Reward` | Env.py:121-168 | The reward is R*ride - C*(transit+ride) for the trip of the shared case split, and -C when idle. A pickup where the driver stands gives (R-C)*ride ≥ 0. |
| `Transitions.NextState` | Env.py:173-220 | Elapsed time is 1 when idle and transit + ride otherwise. Idle stays at the location; a ride ends at the drop. The new hour is below 24 and a valid day stays below 7. A valid state and action give a valid next state. The hour of the week moves forward by the elapsed hours. |
| `Transitions.TakeStep` | Env.py:222-225 | The step returns NextState's state and elapsed time together with Reward's reward. The reward equals R*ride - C*elapsed, so it lies between -C*elapsed and (R-C)*elapsed. |
| `Transitions.RepositionArrival` | Env.py:194-216 | When repositioning, the clock at the drop is the clock at the pickup advanced by the ride. |
| `Transitions.IdleStep` | Env.py:203-218 | Idling from a valid state gives reward -C and elapsed time 1, keeps the location, and advances the clock by exactly one hour. |
| `Scenarios.IdleScenario` | Env.py:222-225 | Idle at (0, 10, 2) gives next state (0, 11, 2), reward -5 and elapsed time 1. |
| `Scenarios.PickupScenario` | Env.py:222-225 | A 2-hour pickup at location 2, hour 23, day 6 gives next state (3, 1, 0), reward 8 and elapsed time 2. |
| `Scenarios.RepositionScenario` | Env.py:222-225 | A 5-hour transit plus a 3-hour ride from (1, 20, 0) gives next state (4, 4, 1), reward -13 and elapsed time 8. |
| `Driver.CabDriver.constructor` | Env.py:20-41 | The object holds the built action space, the full state space, and the chosen initial state. |
| `Driver.CabDriver.Reset` | Env.py:228-229 | Returns the built action space (21 actions, equal at every index to the reference enumeration: idle first, then the off-diagonal pairs), the full state space of 840 states, and the object's initial state, which is a valid state from that space. |

## Left out

- Loading the travel-time table from `TM.npy` (Env.py:15) is file I/O. The table is a parameter with natural-number entries.
- The Poisson draw of the request count (Env.py:76-85) is an input `drawn`. `RequestBatch.RequestMean` records the mean for each location; the distribution itself is not modelled.
- `random.sample` (Env.py:90) is an input `sample`, required to hold the right number of distinct indices in 1..20.
- `random.choice` of the initial state (Env.py:38) is an input index into the state space.
- The `int(...)` casts (Env.py:117, 168) truncate numpy scalars. They are the identity on the integer table and are not modelled.
- The commented-out `state_encod_arch2` (Env.py:63-67) and the commented-out `append` (Env.py:34) are dead code.
- The module-level values m, t, d, C and R (Env.py:9-13) are fixed constants, not mutable globals.
- `StateSpaces.EncodeState` requires a valid state. In Python, an out-of-range component whose position is still below 36 raises nothing: it silently writes a one into another block. For example, hour 30 writes at index 35, the day-6 slot, and a location in 5..35 writes into the hour or day block. Positions of 36 or more, or below -36, raise `IndexError`; positions from -36 to -1 wrap. None of this is modelled.
- `Clock.NewTimeAndDay` promises a day below 7 only for a day below 7. An invalid day that does not cross midnight is returned unchanged, as in the source.
- `self.reset()` inside the constructor (Env.py:41) discards its result and is not modelled.
