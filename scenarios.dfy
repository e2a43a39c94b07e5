/** Worked steps on a small table: idling, a pickup where the driver stands
    across midnight at the end of the week, and a repositioning that crosses
    midnight on the way to the pickup. */
module Scenarios {
  import opened CabTypes
  import opened Transitions

  /** Two hours from 2 to 3 at hour 23 of day 6, five hours from 1 to 3 at
      hour 20 of day 0, three hours from 3 to 4 at hour 1 of day 1, one hour
      for every other entry. */
  function SampleHours(a: nat, b: nat, h: nat, dd: nat): nat {
    if (a, b, h, dd) == (2, 3, 23, 6) then 2
    else if (a, b, h, dd) == (1, 3, 20, 0) then 5
    else if (a, b, h, dd) == (3, 4, 1, 1) then 3
    else 1
  }

  function SampleTable(): (tm: Table)
    ensures WellShaped(tm)
  {
    seq(m, (a: nat) => seq(m, (b: nat) => seq(t, (h: nat) => seq(d, (dd: nat) => SampleHours(a, b, h, dd)))))
  }

  lemma IdleScenario()
    ensures TakeStep(State(0, 10, 2), Idle, SampleTable()) == Step(State(0, 11, 2), -5, 1)
  {
  }

  lemma PickupScenario()
    ensures TakeStep(State(2, 23, 6), Action(2, 3), SampleTable()) == Step(State(3, 1, 0), 8, 2)
  {
    var tm := SampleTable();
    assert Lookup(tm, 2, 3, 23, 6) == 2;
  }

  lemma RepositionScenario()
    ensures TakeStep(State(1, 20, 0), Action(3, 4), SampleTable()) == Step(State(4, 4, 1), -13, 8)
  {
    var tm := SampleTable();
    assert Lookup(tm, 1, 3, 20, 0) == 5;
    assert Lookup(tm, 3, 4, 1, 1) == 3;
  }
}
