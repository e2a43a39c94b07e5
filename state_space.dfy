/** The state space and the one-hot encoding of a state fed to the network. */
module StateSpaces {
  import opened CabTypes

  /** Number of states. */
  const NumStates: nat := m * t * d

  /** Every (location, hour, day) triple, location slowest and day fastest. */
  function StateSpace(): (r: seq<State>)
    ensures |r| == NumStates
    ensures forall p :: 0 <= p < NumStates ==> ValidState(r[p])
  {
    seq(NumStates, p requires 0 <= p < NumStates => State(p / (t * d), (p / d) % t, p % d))
  }

  /** Position of a valid state in the state space. */
  function StateIndex(s: State): nat {
    s.loc * (t * d) + s.time * d + s.day
  }

  /** The triple at position i*t*d + j*d + k is (i, j, k): every valid
      state is listed, at that position. */
  lemma StateSpaceAt(s: State)
    requires ValidState(s)
    ensures StateIndex(s) < NumStates
    ensures StateSpace()[StateIndex(s)] == s
  {
  }

  /** Every entry of the state space sits at its own index, so no state is
      listed twice. */
  lemma StateSpaceIndexed(p: nat)
    requires p < NumStates
    ensures StateIndex(StateSpace()[p]) == p
  {
  }

  /** A block of n zeros with a single one at position x. */
  function Block(n: nat, x: nat): seq<int> {
    seq(n, i => if i == x then 1 else 0)
  }

  /** The reference encoding: location, hour and day blocks side by side. */
  function OneHot(s: State): seq<int> {
    Block(m, s.loc) + Block(t, s.time) + Block(d, s.day)
  }

  /** Writes a one at the location, at m + hour and at m + t + day of a fresh
      zero vector of length m + t + d. */
  method EncodeState(s: State) returns (encoding: seq<int>)
    requires ValidState(s)
    ensures |encoding| == m + t + d
    ensures forall p :: 0 <= p < m + t + d ==>
      encoding[p] == (if p == s.loc || p == m + s.time || p == m + t + s.day then 1 else 0)
    ensures encoding == OneHot(s)
  {
    var a := new int[m + t + d](_ => 0);
    a[s.loc] := 1;
    a[m + s.time] := 1;
    a[m + t + s.day] := 1;
    encoding := a[..];
  }

  /** Number of entries equal to one. */
  function Ones(v: seq<int>): nat {
    if v == [] then 0 else (if v[0] == 1 then 1 else 0) + Ones(v[1..])
  }

  lemma {:induction false} OnesAppend(u: seq<int>, v: seq<int>)
    ensures Ones(u + v) == Ones(u) + Ones(v)
  {
    if u != [] {
      assert (u + v)[1..] == u[1..] + v;
      OnesAppend(u[1..], v);
    } else {
      assert u + v == v;
    }
  }

  /** A block with its one inside it holds exactly one one. */
  lemma {:induction false} OnesBlock(n: nat, x: nat)
    requires x < n
    ensures Ones(Block(n, x)) == 1
  {
    var b := Block(n, x);
    if x == 0 {
      assert b == [1] + Block(n - 1, n);
      OnesAppend([1], Block(n - 1, n));
      OnesOutside(n - 1, n);
    } else {
      assert b == [0] + Block(n - 1, x - 1);
      OnesAppend([0], Block(n - 1, x - 1));
      OnesBlock(n - 1, x - 1);
    }
  }

  /** A block whose one lies outside it is all zeros. */
  lemma {:induction false} OnesOutside(n: nat, x: nat)
    requires x >= n
    ensures Ones(Block(n, x)) == 0
  {
    if n > 0 {
      assert Block(n, x) == [0] + Block(n - 1, x - 1);
      OnesAppend([0], Block(n - 1, x - 1));
      OnesOutside(n - 1, x - 1);
    }
  }

  /** The encoding of a valid state holds exactly three ones. */
  lemma OneHotOnes(s: State)
    requires ValidState(s)
    ensures Ones(OneHot(s)) == 3
  {
    OnesAppend(Block(m, s.loc) + Block(t, s.time), Block(d, s.day));
    OnesAppend(Block(m, s.loc), Block(t, s.time));
    OnesBlock(m, s.loc);
    OnesBlock(t, s.time);
    OnesBlock(d, s.day);
  }

  /** Distinct valid states have distinct encodings. */
  lemma OneHotInjective(s1: State, s2: State)
    requires ValidState(s1) && ValidState(s2)
    requires OneHot(s1) == OneHot(s2)
    ensures s1 == s2
  {
    assert OneHot(s1)[s1.loc] == 1;
    assert OneHot(s2)[s1.loc] == 1;
    assert OneHot(s1)[m + s1.time] == 1;
    assert OneHot(s2)[m + s1.time] == 1;
    assert OneHot(s1)[m + t + s1.day] == 1;
    assert OneHot(s2)[m + t + s1.day] == 1;
  }
}
