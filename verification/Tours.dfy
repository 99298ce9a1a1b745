/** Visiting orders: reversing a stretch in place, and the path cost such a reversal changes. */
module Tours {

  ghost predicate IsPermutation(s: seq<int>, n: nat) {
    && |s| == n
    && (forall p :: 0 <= p < n ==> 0 <= s[p] < n)
    && forall p, q :: 0 <= p < q < n ==> s[p] != s[q]
  }

  function Identity(n: nat): (s: seq<int>)
    ensures IsPermutation(s, n)
  {
    seq(n, p => p)
  }

  /** s with its stretch [i, j) backwards. */
  function Reversed(s: seq<int>, i: nat, j: nat): (r: seq<int>)
    requires i <= j <= |s|
    ensures |r| == |s|
  {
    seq(|s|, p requires 0 <= p < |s| => if i <= p < j then s[i + j - 1 - p] else s[p])
  }

  lemma ReversedTwice(s: seq<int>, i: nat, j: nat)
    requires i <= j <= |s|
    ensures Reversed(Reversed(s, i, j), i, j) == s
  {
  }

  lemma ReversedKeepsPermutation(s: seq<int>, i: nat, j: nat, n: nat)
    requires i <= j <= |s| && IsPermutation(s, n)
    ensures IsPermutation(Reversed(s, i, j), n)
  {
    var r := Reversed(s, i, j);
    forall p, q | 0 <= p < q < n ensures r[p] != r[q] {
      var p', q' := if i <= p < j then i + j - 1 - p else p, if i <= q < j then i + j - 1 - q else q;
      assert r[p] == s[p'] && r[q] == s[q'] && p' != q';
    }
  }

  /** The in-place reversal of the standard library, on the working sequence. */
  method ReverseInPlace(a: array<int>, i: nat, j: nat)
    requires i <= j <= a.Length
    modifies a
    ensures a[..] == Reversed(old(a[..]), i, j)
  {
    var lo, hi := i, j;
    while lo + 1 < hi
      invariant i <= lo <= hi + 1 && hi <= j && lo - i == j - hi
      invariant forall p :: 0 <= p < a.Length && (lo <= p < hi || p < i || j <= p) ==> a[p] == old(a[p])
      invariant forall p :: i <= p < lo || hi <= p < j ==> a[p] == old(a[i + j - 1 - p])
    {
      hi := hi - 1;
      a[lo], a[hi] := a[hi], a[lo];
      lo := lo + 1;
    }
  }

  /*---------- Path cost ----------*/

  type Distances = (int, int) -> real

  function PathCost(d: Distances, s: seq<int>): real {
    if |s| < 2 then 0.0 else PathCost(d, s[..|s| - 1]) + d(s[|s| - 2], s[|s| - 1])
  }

  /** TotalDistanceTspCostFunction::estimate; its loop bound is unsigned, so it needs a point. */
  method Estimate(d: Distances, s: seq<int>) returns (cost: real)
    requires s != []
    ensures cost == PathCost(d, s)
  {
    cost := 0.0;
    for p := 0 to |s| - 1
      invariant cost == PathCost(d, s[..p + 1])
    {
      assert s[..p + 2][..p + 1] == s[..p + 1];
      cost := cost + d(s[p], s[p + 1]);
    }
    assert s[..|s|] == s;
  }

  /** The step from the end of one stretch to the begin of the next. */
  function Link(d: Distances, a: seq<int>, b: seq<int>): real {
    if a == [] || b == [] then 0.0 else d(a[|a| - 1], b[0])
  }

  lemma {:induction false} PathCostConcat(d: Distances, a: seq<int>, b: seq<int>)
    ensures PathCost(d, a + b) == PathCost(d, a) + Link(d, a, b) + PathCost(d, b)
  {
    if b == [] {
      assert a + b == a;
    } else if a == [] {
      assert a + b == b;
    } else {
      var b' := b[..|b| - 1];
      assert (a + b)[..|a + b| - 1] == a + b';
      PathCostConcat(d, a, b');
      if b' == [] { assert a + b' == a; }
    }
  }

  ghost predicate Symmetric(d: Distances) {
    forall p, q :: d(p, q) == d(q, p)
  }

  lemma {:induction false} BackwardsCost(d: Distances, s: seq<int>)
    requires Symmetric(d)
    ensures PathCost(d, Reversed(s, 0, |s|)) == PathCost(d, s)
  {
    if |s| >= 2 {
      var front, last := s[..|s| - 1], s[|s| - 1];
      assert Reversed(s, 0, |s|) == [last] + Reversed(front, 0, |front|);
      BackwardsCost(d, front);
      PathCostConcat(d, [last], Reversed(front, 0, |front|));
    }
  }

  lemma ReplaceStretch(d: Distances, a: seq<int>, b: seq<int>, r: seq<int>, c: seq<int>)
    requires b != [] && r != [] && PathCost(d, r) == PathCost(d, b)
    ensures PathCost(d, a + (r + c)) - PathCost(d, a + (b + c)) == Link(d, a, r) - Link(d, a, b) + Link(d, r, c) - Link(d, b, c)
  {
    PathCostConcat(d, a, b + c);
    PathCostConcat(d, b, c);
    PathCostConcat(d, a, r + c);
    PathCostConcat(d, r, c);
  }

  lemma LinksOfReversal(d: Distances, s: seq<int>, i: nat, j: nat)
    requires i < j <= |s|
    ensures var b, r := s[i..j], Reversed(s[i..j], 0, j - i);
            && Link(d, s[..i], r) - Link(d, s[..i], b) == (if 0 < i then d(s[i - 1], s[j - 1]) - d(s[i - 1], s[i]) else 0.0)
            && Link(d, r, s[j..]) - Link(d, b, s[j..]) == (if j < |s| then d(s[i], s[j]) - d(s[j - 1], s[j]) else 0.0)
  {
    var b, r := s[i..j], Reversed(s[i..j], 0, j - i);
    assert r[0] == s[j - 1] && r[j - i - 1] == s[i] && b[0] == s[i] && b[j - i - 1] == s[j - 1];
  }

  lemma ReversalByStretches(s: seq<int>, i: nat, j: nat)
    requires i <= j <= |s|
    ensures s == s[..i] + (s[i..j] + s[j..])
    ensures Reversed(s, i, j) == s[..i] + (Reversed(s[i..j], 0, j - i) + s[j..])
  {
  }

  /** What it costs to connect the ends of the stretch [i, j) the other way round. */
  function ExchangeDelta(d: Distances, s: seq<int>, i: nat, j: nat): real
    requires i < j <= |s|
  {
    (if 0 < i then d(s[i - 1], s[j - 1]) - d(s[i - 1], s[i]) else 0.0)
    + (if j < |s| then d(s[i], s[j]) - d(s[j - 1], s[j]) else 0.0)
  }

  /** Under symmetric distances a reversal exchanges the two edges at the ends of the stretch, nothing else. */
  lemma ReversalExchangesTwoEdges(d: Distances, s: seq<int>, i: nat, j: nat)
    requires Symmetric(d) && i < j <= |s|
    ensures PathCost(d, Reversed(s, i, j)) - PathCost(d, s) == ExchangeDelta(d, s, i, j)
  {
    var a, b, c := s[..i], s[i..j], s[j..];
    var r := Reversed(b, 0, j - i);
    assert PathCost(d, s) == PathCost(d, a + (b + c)) && PathCost(d, Reversed(s, i, j)) == PathCost(d, a + (r + c)) by {
      ReversalByStretches(s, i, j);
    }
    assert PathCost(d, r) == PathCost(d, b) by { BackwardsCost(d, b); }
    ReplaceStretch(d, a, b, r, c);
    LinksOfReversal(d, s, i, j);
  }
}
