/** The action space: the idle action followed by every ride between two
    distinct locations, built the way the environment's constructor builds it. */
module ActionSpaces {
  import opened CabTypes

  /** Size of the action space: every off-diagonal pair plus the idle action. */
  const NumActions: nat := m * (m - 1) + 1

  /** All ordered location pairs in the order of a Cartesian product:
      pair number p is (p / m, p % m). */
  function Product(): (r: seq<Action>)
    ensures |r| == m * m
  {
    seq(m * m, p requires 0 <= p < m * m => Action(p / m, p % m))
  }

  /** Every pair occurs in the product, pair (i, j) at position i * m + j. */
  lemma ProductAt(a: Action)
    requires ValidAction(a)
    ensures a.pickup * m + a.drop < m * m
    ensures Product()[a.pickup * m + a.drop] == a
  {
  }

  /** Python's `list.remove`: drops the first element equal to x. */
  function RemoveFirst(s: seq<Action>, x: Action): (r: seq<Action>)
    requires x in s
    ensures |r| == |s| - 1
  {
    if s[0] == x then s[1..] else [s[0]] + RemoveFirst(s[1..], x)
  }

  /** Removing x takes exactly one copy of x away and keeps everything else. */
  lemma {:induction false} RemoveFirstMultiset(s: seq<Action>, x: Action)
    requires x in s
    ensures multiset(RemoveFirst(s, x)) == multiset(s) - multiset{x}
  {
    assert s == [s[0]] + s[1..];
    if s[0] != x {
      RemoveFirstMultiset(s[1..], x);
    }
  }

  /** When x first occurs at position n, removing it splices out position n. */
  lemma {:induction false} RemoveFirstAt(s: seq<Action>, x: Action, n: nat)
    requires n < |s| && s[n] == x
    requires forall q :: 0 <= q < n ==> s[q] != x
    ensures RemoveFirst(s, x) == s[..n] + s[n + 1..]
  {
    if n > 0 {
      assert s[0] != x;
      assert s[1..][n - 1] == x;
      RemoveFirstAt(s[1..], x, n - 1);
      assert s[1..][..n - 1] + s[1..][n..] == s[1..n] + s[n + 1..];
      assert [s[0]] + s[1..n] == s[..n];
    }
  }

  /** The reference enumeration: index 0 is idle; index k >= 1 is the
      (k - 1)-th off-diagonal pair in lexicographic order. */
  function ActionAt(k: nat): (a: Action)
    requires k < NumActions
    ensures ValidAction(a)
    ensures k == 0 <==> a == Idle
    ensures k > 0 ==> a.pickup != a.drop
  {
    if k == 0 then Idle
    else
      var q := k - 1;
      var i := q / (m - 1);
      var r := q % (m - 1);
      Action(i, if r < i then r else r + 1)
  }

  /** Position of an off-diagonal pair in the action space. */
  function ActionIndex(a: Action): (k: nat)
    requires ValidAction(a) && a.pickup != a.drop
    ensures 1 <= k < NumActions
  {
    1 + a.pickup * (m - 1) + (if a.drop < a.pickup then a.drop else a.drop - 1)
  }

  /** ActionAt and ActionIndex are inverse on the non-idle actions. */
  lemma ActionIndexRoundTrip(a: Action, k: nat)
    requires ValidAction(a) && a.pickup != a.drop
    requires 1 <= k < NumActions
    ensures ActionAt(ActionIndex(a)) == a
    ensures ActionIndex(ActionAt(k)) == k
  {
  }

  predicate LexLess(a: Action, b: Action) {
    a.pickup < b.pickup || (a.pickup == b.pickup && a.drop < b.drop)
  }

  /** The non-idle actions are strictly increasing in lexicographic order,
      so no pair occurs twice. */
  lemma ActionAtOrdered(j: nat, k: nat)
    requires 1 <= j < k < NumActions
    ensures LexLess(ActionAt(j), ActionAt(k))
    ensures ActionAt(j) != ActionAt(k)
  {
  }

  /** Every ride between two distinct locations occurs in the action space. */
  lemma ActionAtComplete(a: Action)
    requires ValidAction(a) && a.pickup != a.drop
    ensures exists k :: 1 <= k < NumActions && ActionAt(k) == a
  {
    ActionIndexRoundTrip(a, 1);
  }

  /** Pair number p of the product is on the diagonal exactly when p is a
      multiple of m + 1. */
  lemma ProductDiagonal(p: nat)
    requires p < m * m
    ensures Product()[p].pickup == Product()[p].drop <==> p % (m + 1) == 0
  {
  }

  /** Length of the settled prefix (idle plus the off-diagonal pairs kept)
      once the first k pairs after (0, 0) have been walked. */
  function Settled(k: nat): nat {
    1 + k - k / (m + 1)
  }

  /** Walking pair number k + 1 of the product either drops it (diagonal)
      or settles it at position Settled(k), where the reference enumeration
      expects it. */
  lemma SettledStep(k: nat)
    requires k < m * m - 1
    ensures Product()[k + 1].pickup == Product()[k + 1].drop ==> Settled(k + 1) == Settled(k)
    ensures Product()[k + 1].pickup != Product()[k + 1].drop ==>
      Settled(k + 1) == Settled(k) + 1 && Settled(k) < NumActions &&
      ActionAt(Settled(k)) == Product()[k + 1]
  {
    ProductDiagonal(k + 1);
  }

  /** The list after walking the first k pairs of `rest`, the product
      without its first pair: the settled prefix is the reference
      enumeration, and the unwalked pairs follow it untouched. */
  ghost predicate Walked(l3: seq<Action>, rest: seq<Action>, k: nat) {
    rest == Product()[1..] && k <= |rest| &&
    Settled(k) <= |l3| &&
    (forall q :: 0 <= q < Settled(k) ==> l3[q] == ActionAt(q)) &&
    l3[Settled(k)..] == rest[k..]
  }

  /** One iteration of the walk keeps the list in shape: a diagonal pair is
      present, and removing its first occurrence removes the copy that was
      just reached; any other pair is already in place. */
  lemma WalkStep(l3: seq<Action>, rest: seq<Action>, k: nat)
    requires Walked(l3, rest, k) && k < |rest|
    ensures rest[k].pickup == rest[k].drop ==>
      rest[k] in l3 && Walked(RemoveFirst(l3, rest[k]), rest, k + 1)
    ensures rest[k].pickup != rest[k].drop ==> Walked(l3, rest, k + 1)
  {
    var i, n := rest[k], Settled(k);
    assert l3[n] == i by { assert l3[n..][0] == rest[k..][0]; }
    SettledStep(k);
    if i.pickup == i.drop {
      RemoveFirstAt(l3, i, n);
      var l := RemoveFirst(l3, i);
      assert l[n..] == l3[n + 1..];
    } else {
      assert l3[n + 1..] == l3[n..][1..];
    }
  }

  /** Once every pair is walked, the list is the whole reference enumeration. */
  lemma WalkDone(l3: seq<Action>, rest: seq<Action>)
    requires Walked(l3, rest, |rest|)
    ensures |l3| == NumActions
    ensures forall k :: 0 <= k < NumActions ==> l3[k] == ActionAt(k)
  {
    assert Settled(|rest|) == NumActions;
  }

  /** Builds the action space: all location pairs, minus every diagonal pair
      found after the first one, removed in place from the list while
      walking a copy of its tail. The first pair, (0, 0), stays as the idle
      action. */
  method BuildActionSpace() returns (l3: seq<Action>)
    ensures |l3| == NumActions
    ensures forall k :: 0 <= k < NumActions ==> l3[k] == ActionAt(k)
  {
    l3 := Product();
    var rest := l3[1..];
    var k := 0;
    while k < |rest|
      invariant Walked(l3, rest, k)
    {
      var i := rest[k];
      WalkStep(l3, rest, k);
      if i.pickup == i.drop {
        l3 := RemoveFirst(l3, i);
      }
      k := k + 1;
    }
    WalkDone(l3, rest);
  }
}
