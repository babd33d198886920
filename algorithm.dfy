/**
 * The routing selection engine (supervisor/internal/routing/algorithm.go): keep the
 * healthy nodes, order them by distance to the request, keep the k nearest, and pick
 * the least loaded of those.
 */
module Algorithm {
  import opened Wrappers
  import opened Models

  // ---------------------------------------------------------------------------
  // Distance

  /**
   * The square of the Euclidean distance between two points. `CalculateDistance`
   * returns its square root; since the square root is strictly increasing on the
   * non-negative reals, every comparison the router makes between two distances
   * has the same outcome on their squares.
   */
  function SquaredDistance(x1: real, y1: real, x2: real, y2: real): (d: real)
    ensures d >= 0.0
    ensures x1 == x2 && y1 == y2 ==> d == 0.0
  {
    (x1 - x2) * (x1 - x2) + (y1 - y2) * (y1 - y2)
  }

  lemma DistanceSymmetric(x1: real, y1: real, x2: real, y2: real)
    ensures SquaredDistance(x1, y1, x2, y2) == SquaredDistance(x2, y2, x1, y1)
  {
  }

  /** Distance from the request point (x, y) to a node, as `FindKNearestNodes` computes it. */
  function NodeDistance(x: real, y: real, n: Node): (d: real)
  {
    SquaredDistance(x, y, n.locationX, n.locationY)
  }

  // ---------------------------------------------------------------------------
  // Filtering

  /** The elements of `s` that satisfy `p`, in their order in `s`. */
  function Filter<T>(s: seq<T>, p: T -> bool): (r: seq<T>)
    ensures |r| <= |s|
    ensures forall i :: 0 <= i < |r| ==> r[i] in s && p(r[i])
  {
    if s == [] then [] else
      var last := s[|s| - 1];
      Filter(s[..|s| - 1], p) + if p(last) then [last] else []
  }

  /** `Filter` keeps every copy of a value that satisfies `p` and no copy of any other. */
  lemma {:induction false} FilterMultiset<T>(s: seq<T>, p: T -> bool, v: T)
    ensures multiset(Filter(s, p))[v] == if p(v) then multiset(s)[v] else 0
  {
    if s != [] {
      var init, last := s[..|s| - 1], s[|s| - 1];
      assert s == init + [last];
      FilterMultiset(init, p, v);
    }
  }

  /** `Filter` returns nothing exactly when no element satisfies `p`. */
  lemma {:induction false} FilterEmpty<T>(s: seq<T>, p: T -> bool)
    ensures Filter(s, p) == [] <==> forall i :: 0 <= i < |s| ==> !p(s[i])
  {
    if s != [] {
      var init := s[..|s| - 1];
      FilterEmpty(init, p);
      assert forall i :: 0 <= i < |init| ==> init[i] == s[i];
    }
  }

  predicate IsHealthy(n: Node)
  {
    n.status == HealthyStatus
  }

  /** The nodes `FindKNearestNodes` considers: the healthy ones, in input order. */
  function Healthy(nodes: seq<Node>): (h: seq<Node>)
  {
    Filter(nodes, IsHealthy)
  }

  /** The nodes of `h` strictly closer to (x, y) than distance `d`. */
  function Closer(h: seq<Node>, x: real, y: real, d: real): (closer: seq<Node>)
  {
    Filter(h, (n: Node) => NodeDistance(x, y, n) < d)
  }

  // ---------------------------------------------------------------------------
  // The k nearest healthy nodes

  function Min(a: int, b: int): (m: int)
  {
    if a <= b then a else b
  }

  /** Filtering a concatenation filters each part. */
  lemma {:induction false} FilterConcat<T>(a: seq<T>, b: seq<T>, p: T -> bool)
    ensures Filter(a + b, p) == Filter(a, p) + Filter(b, p)
    decreases |b|
  {
    if b != [] {
      var init, last := b[..|b| - 1], b[|b| - 1];
      assert (a + b)[|a + b| - 1] == last;
      assert (a + b)[..|a + b| - 1] == a + init;
      assert Filter(a + b, p) == Filter(a + init, p) + if p(last) then [last] else [];
      assert Filter(b, p) == Filter(init, p) + if p(last) then [last] else [];
      FilterConcat(a, init, p);
      var tail := if p(last) then [last] else [];
      assert (Filter(a, p) + Filter(init, p)) + tail == Filter(a, p) + (Filter(init, p) + tail);
    } else {
      assert a + b == a;
    }
  }

  /** Filtering commutes with reordering. */
  lemma FilterPermutation<T>(a: seq<T>, b: seq<T>, p: T -> bool)
    requires multiset(a) == multiset(b)
    ensures |Filter(a, p)| == |Filter(b, p)|
  {
    forall v
      ensures multiset(Filter(a, p))[v] == multiset(Filter(b, p))[v]
    {
      FilterMultiset(a, p, v);
      FilterMultiset(b, p, v);
    }
    assert multiset(Filter(a, p)) == multiset(Filter(b, p));
    assert |multiset(Filter(a, p))| == |Filter(a, p)|;
  }

  /**
   * `kept` and `rest` split the nodes of `h` (with multiplicity), and no node of
   * `kept` is farther from (x, y) than any node of `rest`.
   */
  ghost predicate SplitsNearest(h: seq<Node>, x: real, y: real, kept: seq<Node>, rest: seq<Node>)
  {
    && multiset(kept + rest) == multiset(h)
    && forall i, j :: 0 <= i < |kept| && 0 <= j < |rest| ==>
         NodeDistance(x, y, kept[i]) <= NodeDistance(x, y, rest[j])
  }

  /**
   * `r` is a valid answer for the k nearest nodes of `h` to (x, y): it has
   * min(k, |h|) nodes, ordered by distance, and together with the nodes left out
   * it makes up `h`, no node left out being strictly closer than a node kept.
   * This fixes `r` up to the order among equally distant nodes, which Go's
   * `sort.Slice` leaves open.
   */
  ghost predicate IsKNearest(h: seq<Node>, x: real, y: real, k: nat, r: seq<Node>)
  {
    && |r| == Min(k, |h|)
    && (forall i, j :: 0 <= i < j < |r| ==> NodeDistance(x, y, r[i]) <= NodeDistance(x, y, r[j]))
    && exists rest :: SplitsNearest(h, x, y, r, rest)
  }

  /** The answer is drawn from `h`: it takes no node more often than `h` has it. */
  lemma KNearestFromInput(h: seq<Node>, x: real, y: real, k: nat, r: seq<Node>)
    requires IsKNearest(h, x, y, k, r)
    ensures multiset(r) <= multiset(h)
  {
  }

  /**
   * A kept node at position i of the answer has at most i nodes of `h` strictly
   * closer to the request; so each kept node is among the k closest.
   */
  lemma FewerCloserThanKept(h: seq<Node>, x: real, y: real, k: nat, r: seq<Node>, i: nat)
    requires IsKNearest(h, x, y, k, r)
    requires i < |r|
    ensures |Closer(h, x, y, NodeDistance(x, y, r[i]))| <= i
  {
    var rest :| SplitsNearest(h, x, y, r, rest);
    var d := NodeDistance(x, y, r[i]);
    var p := (n: Node) => NodeDistance(x, y, n) < d;
    assert r + rest == r[..i] + (r[i..] + rest);
    FilterConcat(r[..i], r[i..] + rest, p);
    FilterConcat(r[i..], rest, p);
    FilterEmpty(r[i..], p);
    FilterEmpty(rest, p);
    FilterPermutation(h, r + rest, p);
  }

  /** The first node of a non-empty answer is a nearest healthy node. */
  lemma NearestComesFirst(h: seq<Node>, x: real, y: real, k: nat, r: seq<Node>, n: Node)
    requires IsKNearest(h, x, y, k, r)
    requires |r| > 0 && n in h
    ensures NodeDistance(x, y, r[0]) <= NodeDistance(x, y, n)
  {
    var d := NodeDistance(x, y, r[0]);
    var p := (m: Node) => NodeDistance(x, y, m) < d;
    FewerCloserThanKept(h, x, y, k, r, 0);
    FilterMultiset(h, p, n);
    assert Closer(h, x, y, d) == [];
    assert multiset(h)[n] > 0;
  }

  /** When k covers every healthy node, the answer holds all of them. */
  lemma KNearestTakesAll(h: seq<Node>, x: real, y: real, k: nat, r: seq<Node>)
    requires IsKNearest(h, x, y, k, r)
    requires k >= |h|
    ensures multiset(r) == multiset(h)
  {
  }

  /** Every node of an answer for the healthy nodes of an input is a healthy input node. */
  lemma KNearestAreHealthyInputs(nodes: seq<Node>, x: real, y: real, k: nat, r: seq<Node>)
    requires IsKNearest(Healthy(nodes), x, y, k, r)
    ensures forall i :: 0 <= i < |r| ==> r[i] in nodes && IsHealthy(r[i])
  {
    KNearestFromInput(Healthy(nodes), x, y, k, r);
    forall i | 0 <= i < |r|
      ensures r[i] in nodes && IsHealthy(r[i])
    {
      assert r[i] in multiset(r);
      assert r[i] in multiset(Healthy(nodes));
    }
  }

  /** A healthy node paired with its distance to the request (Go's `NodeWithDistance`). */
  datatype Candidate = Candidate(node: Node, distance: real)

  /** The nodes of a list of candidates, in the same order. */
  function NodesOf(cs: seq<Candidate>): (ns: seq<Node>)
  {
    seq(|cs|, i requires 0 <= i < |cs| => cs[i].node)
  }

  lemma NodesOfConcat(a: seq<Candidate>, b: seq<Candidate>)
    ensures NodesOf(a + b) == NodesOf(a) + NodesOf(b)
  {
  }

  /** Reordering candidates reorders their nodes the same way. */
  lemma {:induction false} NodesOfPermutation(a: seq<Candidate>, b: seq<Candidate>)
    requires multiset(a) == multiset(b)
    ensures multiset(NodesOf(a)) == multiset(NodesOf(b))
    decreases |a|
  {
    if a == [] {
      assert |b| == |multiset(b)| == 0;
    } else {
      var c := a[0];
      assert c in multiset(b);
      var j :| 0 <= j < |b| && b[j] == c;
      var b' := b[..j] + b[j + 1..];
      assert b == b[..j] + [c] + b[j + 1..];
      assert a == [c] + a[1..];
      assert multiset(a) == multiset{c} + multiset(a[1..]);
      assert multiset(b) == multiset(b[..j]) + multiset{c} + multiset(b[j + 1..]);
      assert multiset(b') == multiset(b[..j]) + multiset(b[j + 1..]);
      assert multiset(a[1..]) == multiset(a) - multiset{c};
      assert multiset(b') == multiset(b) - multiset{c};
      NodesOfPermutation(a[1..], b');
      NodesOfConcat([c], a[1..]);
      NodesOfConcat(b[..j], [c]);
      NodesOfConcat(b[..j] + [c], b[j + 1..]);
      NodesOfConcat(b[..j], b[j + 1..]);
    }
  }

  ghost predicate SortedByDistance(s: seq<Candidate>)
  {
    forall i, j :: 0 <= i < j < |s| ==> s[i].distance <= s[j].distance
  }

  /** A sorted, distance-annotated permutation of `h` yields the k nearest as its prefix. */
  lemma PrefixIsKNearest(s: seq<Candidate>, h: seq<Node>, x: real, y: real, k: nat, m: nat)
    requires SortedByDistance(s)
    requires multiset(NodesOf(s)) == multiset(h)
    requires WellFormed(s, x, y)
    requires |s| == |h| && m == Min(k, |h|)
    ensures IsKNearest(h, x, y, k, NodesOf(s[..m]))
  {
    var kept, rest := NodesOf(s[..m]), NodesOf(s[m..]);
    assert s == s[..m] + s[m..];
    NodesOfConcat(s[..m], s[m..]);
    forall i, j | 0 <= i < |kept| && 0 <= j < |rest|
      ensures NodeDistance(x, y, kept[i]) <= NodeDistance(x, y, rest[j])
    {
      assert kept[i] == s[i].node && s[i] in s;
      assert rest[j] == s[m + j].node && s[m + j] in s;
    }
    forall i, j | 0 <= i < j < |kept|
      ensures NodeDistance(x, y, kept[i]) <= NodeDistance(x, y, kept[j])
    {
      assert s[i] in s && s[j] in s;
    }
    assert SplitsNearest(h, x, y, kept, rest);
  }

  method Swap(a: array<Candidate>, i: nat, j: nat)
    requires i < a.Length && j < a.Length
    modifies a
    ensures a[..] == old(a[..])[i := old(a[j])][j := old(a[i])]
    ensures multiset(a[..]) == old(multiset(a[..]))
  {
    a[i], a[j] := a[j], a[i];
  }

  /**
   * Sorts the candidates by distance, in place. This stands for Go's `sort.Slice`,
   * which promises only a sorted permutation; selection sort is one such sort.
   */
  method SortByDistance(a: array<Candidate>)
    modifies a
    ensures SortedByDistance(a[..])
    ensures multiset(a[..]) == old(multiset(a[..]))
  {
    var i := 0;
    while i < a.Length
      invariant 0 <= i <= a.Length
      invariant forall p, q :: 0 <= p < q < i ==> a[p].distance <= a[q].distance
      invariant forall p, q :: 0 <= p < i <= q < a.Length ==> a[p].distance <= a[q].distance
      invariant multiset(a[..]) == old(multiset(a[..]))
    {
      var m, j := i, i + 1;
      while j < a.Length
        invariant i <= m < a.Length && i < j <= a.Length
        invariant forall q :: i <= q < j ==> a[m].distance <= a[q].distance
      {
        if a[j].distance < a[m].distance {
          m := j;
        }
        j := j + 1;
      }
      Swap(a, i, m);
      i := i + 1;
    }
  }

  /** A candidate carries its node's distance to (x, y). */
  predicate WellFormed(cs: seq<Candidate>, x: real, y: real)
  {
    forall c :: c in cs ==> c.distance == NodeDistance(x, y, c.node)
  }

  /** The first phase of `FindKNearestNodes`: the healthy nodes with their distances. */
  method HealthyCandidates(nodes: seq<Node>, x: real, y: real) returns (withDistance: seq<Candidate>)
    ensures NodesOf(withDistance) == Healthy(nodes)
    ensures WellFormed(withDistance, x, y)
  {
    withDistance := [];
    for i := 0 to |nodes|
      invariant NodesOf(withDistance) == Healthy(nodes[..i])
      invariant WellFormed(withDistance, x, y)
    {
      assert nodes[..i + 1] == nodes[..i] + [nodes[i]];
      var node := nodes[i];
      if node.status == HealthyStatus {
        var c := Candidate(node, SquaredDistance(x, y, node.locationX, node.locationY));
        NodesOfConcat(withDistance, [c]);
        withDistance := withDistance + [c];
      }
    }
    assert nodes[..|nodes|] == nodes;
  }

  /** The last phase of `FindKNearestNodes`: the nodes of the first min(k, |a|) candidates. */
  method TakeNodes(a: array<Candidate>, k: int) returns (result: seq<Node>)
    requires k >= 0
    ensures result == NodesOf(a[..Min(k, a.Length)])
  {
    result := [];
    var i := 0;
    while i < k && i < a.Length
      invariant 0 <= i <= a.Length && i <= k
      invariant result == NodesOf(a[..i])
    {
      assert a[..i + 1] == a[..i] + [a[i]];
      NodesOfConcat(a[..i], [a[i]]);
      result := result + [a[i].node];
      i := i + 1;
    }
  }

  /**
   * `FindKNearestNodes`: the k healthy nodes nearest to (x, y), nearest first.
   * Go's `make([]models.Node, 0, k)` panics for a negative k, hence the precondition.
   */
  method FindKNearestNodes(nodes: seq<Node>, x: real, y: real, k: int) returns (result: seq<Node>)
    requires k >= 0
    ensures IsKNearest(Healthy(nodes), x, y, k, result)
    ensures forall i :: 0 <= i < |result| ==> result[i] in nodes && IsHealthy(result[i])
  {
    var withDistance := HealthyCandidates(nodes, x, y);
    var a := new Candidate[|withDistance|](i requires 0 <= i < |withDistance| => withDistance[i]);
    assert a[..] == withDistance;
    SortByDistance(a);
    SortedPermutationFacts(a[..], withDistance, x, y);
    result := TakeNodes(a, k);
    PrefixIsKNearest(a[..], Healthy(nodes), x, y, k, Min(k, a.Length));
    KNearestAreHealthyInputs(nodes, x, y, k, result);
  }

  /** The sorted candidates still carry their distances and the same nodes. */
  lemma SortedPermutationFacts(s: seq<Candidate>, cs: seq<Candidate>, x: real, y: real)
    requires multiset(s) == multiset(cs)
    requires WellFormed(cs, x, y)
    ensures |s| == |cs|
    ensures multiset(NodesOf(s)) == multiset(NodesOf(cs))
    ensures WellFormed(s, x, y)
  {
    NodesOfPermutation(s, cs);
    assert |s| == |multiset(s)| == |cs|;
    forall c | c in s
      ensures c.distance == NodeDistance(x, y, c.node)
    {
      assert c in multiset(s);
    }
  }

  // ---------------------------------------------------------------------------
  // Load score and the least-loaded node

  const CpuWeight: real := 0.4
  const MemoryWeight: real := 0.3
  const ConnectionWeight: real := 0.3

  /**
   * The connection term: active connections over capacity, not clamped at 1.
   * Go divides by a zero capacity into +Inf or NaN; any other capacity, negative
   * ones included, gives a finite ratio.
   */
  function ConnectionRatio(n: Node): (ratio: real)
    requires n.capacity != 0
  {
    n.activeConnections as real / n.capacity as real
  }

  /**
   * `CalculateLoadScore` (and its alias `calculateLoadScore`): weighted CPU,
   * memory and connection saturation; lower is better. Within the nominal
   * ranges the weights, which sum to one, keep the score within [0, 1].
   */
  function LoadScore(n: Node): (score: real)
    requires n.capacity != 0
    ensures 0.0 <= n.cpuUsage <= 100.0 && 0.0 <= n.memoryUsage <= 100.0 && 0 <= n.activeConnections <= n.capacity
            ==> 0.0 <= score <= 1.0
  {
    var connScore := ConnectionRatio(n);
    assert 0 <= n.activeConnections <= n.capacity ==> 0.0 <= connScore <= 1.0 by {
      if 0 <= n.activeConnections <= n.capacity {
        RatioAtMostOne(n.activeConnections, n.capacity);
      }
    }
    CpuWeight * (n.cpuUsage / 100.0) + MemoryWeight * (n.memoryUsage / 100.0) + ConnectionWeight * connScore
  }

  lemma RatioAtMostOne(a: int, b: int)
    requires 0 <= a <= b && b > 0
    ensures 0.0 <= a as real / b as real <= 1.0
  {
  }

  /** More active connections never lower the score. */
  lemma LoadScoreMonotoneInConnections(n: Node, more: int)
    requires n.capacity > 0 && n.activeConnections <= more
    ensures LoadScore(n) <= LoadScore(n.(activeConnections := more))
  {
  }

  /** Higher CPU usage never lowers the score. */
  lemma LoadScoreMonotoneInCpu(n: Node, more: real)
    requires n.capacity != 0 && n.cpuUsage <= more
    ensures LoadScore(n) <= LoadScore(n.(cpuUsage := more))
  {
  }

  /** Higher memory usage never lowers the score. */
  lemma LoadScoreMonotoneInMemory(n: Node, more: real)
    requires n.capacity != 0 && n.memoryUsage <= more
    ensures LoadScore(n) <= LoadScore(n.(memoryUsage := more))
  {
  }

  /** The score is not clamped: an over-admitted node's connection term exceeds its weight. */
  lemma LoadScoreUnclamped(n: Node)
    requires n.capacity > 0 && n.activeConnections > n.capacity
    ensures LoadScore(n) > CpuWeight * (n.cpuUsage / 100.0) + MemoryWeight * (n.memoryUsage / 100.0) + ConnectionWeight
  {
  }

  /** Every node has a load score: no capacity is zero. */
  predicate AllScorable(nodes: seq<Node>)
  {
    forall i :: 0 <= i < |nodes| ==> nodes[i].capacity != 0
  }

  /**
   * `best` is what `SelectBestNode` returns for a non-empty list: the node at some
   * index i whose score is at most every other's, and strictly below every score
   * before i (the first minimum, because a later node replaces the best only when
   * strictly better).
   */
  ghost predicate IsFirstLeastLoaded(nodes: seq<Node>, best: Node)
    requires AllScorable(nodes)
  {
    exists i :: 0 <= i < |nodes| && nodes[i] == best
      && (forall j :: 0 <= j < |nodes| ==> LoadScore(nodes[i]) <= LoadScore(nodes[j]))
      && (forall j :: 0 <= j < i ==> LoadScore(nodes[i]) < LoadScore(nodes[j]))
  }

  /** The tie rule makes the choice unique. */
  lemma FirstLeastLoadedUnique(nodes: seq<Node>, a: Node, b: Node)
    requires AllScorable(nodes)
    requires IsFirstLeastLoaded(nodes, a) && IsFirstLeastLoaded(nodes, b)
    ensures a == b
  {
  }

  /** `SelectBestNode`: the zero node for an empty list, otherwise the first least-loaded node. */
  method SelectBestNode(nodes: seq<Node>) returns (best: Node)
    requires AllScorable(nodes)
    ensures nodes == [] ==> best == ZeroNode
    ensures nodes != [] ==> IsFirstLeastLoaded(nodes, best)
  {
    if |nodes| == 0 {
      return ZeroNode;
    }
    best := nodes[0];
    var bestScore := LoadScore(best);
    ghost var bestIndex := 0;
    for i := 1 to |nodes|
      invariant 0 <= bestIndex < i && nodes[bestIndex] == best && bestScore == LoadScore(best)
      invariant forall j :: 0 <= j < i ==> bestScore <= LoadScore(nodes[j])
      invariant forall j :: 0 <= j < bestIndex ==> bestScore < LoadScore(nodes[j])
    {
      var node := nodes[i];
      var score := LoadScore(node);
      if score < bestScore {
        best, bestScore, bestIndex := node, score, i;
      }
    }
  }
}
