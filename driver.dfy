/** The environment object: its action space, state space and initial state,
    set once by the constructor and handed out by Reset. */
module Driver {
  import opened CabTypes
  import opened ActionSpaces
  import opened StateSpaces

  class CabDriver {
    var actionSpace: seq<Action>
    var stateSpace: seq<State>
    var stateInit: State

    /** The fields hold the enumerations the constructor builds, and the
        initial state is one of the states. */
    ghost predicate Valid()
      reads this
    {
      |actionSpace| == NumActions &&
      (forall k :: 0 <= k < NumActions ==> actionSpace[k] == ActionAt(k)) &&
      stateSpace == StateSpace() &&
      stateInit in stateSpace
    }

    /** Builds both spaces and picks the initial state; `choice` is the index
        of the uniformly drawn state. */
    constructor (choice: nat)
      requires choice < NumStates
      ensures Valid()
      ensures stateInit == StateSpace()[choice]
    {
      var actions := BuildActionSpace();
      actionSpace := actions;
      stateSpace := StateSpace();
      stateInit := StateSpace()[choice];
    }

    /** The action space, state space and initial state. The first action is
        idle, there are NumActions actions and NumStates states, and the
        initial state is valid. */
    function Reset(): (r: (seq<Action>, seq<State>, State))
      reads this
      requires Valid()
      ensures |r.0| == NumActions && r.0[0] == Idle
      ensures forall k :: 1 <= k < |r.0| ==> ValidAction(r.0[k]) && r.0[k].pickup != r.0[k].drop
      ensures |r.1| == NumStates
      ensures r.2 in r.1 && ValidState(r.2)
      ensures forall k :: 0 <= k < NumActions ==> r.0[k] == ActionAt(k)
      ensures r.1 == StateSpace()
      ensures r.2 == stateInit
    {
      (actionSpace, stateSpace, stateInit)
    }
  }
}
