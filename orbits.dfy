/** Orbit counting of lib/days/06.js.

    The orbit map is a graph from each body to the bodies that orbit it
    directly. `CalcOrbitCounts(graph, start)` maps every body that orbits
    `start`, directly or indirectly, to a positive count: each satellite
    contributes its own counts raised by one, with itself set to 1, and
    the contributions are added. When every body has one parent the count
    is the number of orbit steps between them; part one of the puzzle is
    the sum of the counts from "COM".

    The source recursion fails to stop only on a cycle reachable from
    `start`. The model asks for a rank that strictly decreases from a body
    to each body orbiting it, over the whole graph, which exists exactly
    for the acyclic graphs; the rank is ghost and serves only termination
    and the proofs. */
module Orbits {

  type Graph = map<string, seq<string>>
  type Counts = map<string, int>

  /** `counts[v] || 0`. */
  function Get(m: Counts, v: string): int
  {
    if v in m then m[v] else 0
  }

  // ---------------------------------------------------------------------
  // joinOrbitCounts

  /** `joinOrbitCounts`: the first map overridden by the sums at the keys
      of the second. Every key of either map is a key of the result, with
      both maps' counts added. */
  function JoinOrbitCounts(a: Counts, b: Counts): (r: Counts)
    ensures r.Keys == a.Keys + b.Keys
    ensures forall v :: v in r ==> r[v] == Get(a, v) + Get(b, v)
  {
    a + map v | v in b :: Get(a, v) + b[v]
  }

  /** The empty map is an identity on both sides. */
  lemma JoinIdentity(a: Counts)
    ensures JoinOrbitCounts(map[], a) == a
    ensures JoinOrbitCounts(a, map[]) == a
  {
  }

  /** Joining does not depend on the order of the two maps. */
  lemma JoinCommutes(a: Counts, b: Counts)
    ensures JoinOrbitCounts(a, b) == JoinOrbitCounts(b, a)
  {
  }

  // ---------------------------------------------------------------------
  // calcOrbitCounts

  /** A rank that drops from every body with children to each child that has
      children in turn: the whole graph is acyclic. */
  predicate Ranked(graph: Graph, rank: map<string, nat>)
  {
    (forall u :: u in graph ==> u in rank) &&
    (forall u, i :: u in graph && 0 <= i < |graph[u]| && graph[u][i] in graph ==>
       graph[u][i] in rank && rank[graph[u][i]] < rank[u])
  }

  /** The termination measure: bodies without children are the smallest. */
  function Measure(graph: Graph, rank: map<string, nat>, v: string): nat
    requires Ranked(graph, rank)
  {
    if v in graph then rank[v] + 1 else 0
  }

  /** `graph[start] || []`. */
  function Children(graph: Graph, v: string): seq<string>
  {
    if v in graph then graph[v] else []
  }

  /** Every count one higher. */
  function Shift(m: Counts): (r: Counts)
    ensures r.Keys == m.Keys
    ensures forall v :: v in r ==> r[v] == m[v] + 1
  {
    map v | v in m :: m[v] + 1
  }

  /** `calcOrbitCounts`: the children's branches summed with
      `joinOrbitCounts`, from the empty map. A body without children gives
      the empty map, and every count is at least one. */
  function CalcOrbitCounts(graph: Graph, ghost rank: map<string, nat>, start: string): (r: Counts)
    requires Ranked(graph, rank)
    ensures forall v :: v in r ==> r[v] >= 1
    ensures Children(graph, start) == [] ==> r == map[]
    decreases Measure(graph, rank, start), 2
  {
    SumChildren(graph, rank, Children(graph, start), Measure(graph, rank, start))
  }

  /** The map one child contributes: its own counts each raised by one,
      and the child itself at 1. */
  function Branch(graph: Graph, ghost rank: map<string, nat>, dest: string): (r: Counts)
    requires Ranked(graph, rank)
    ensures dest in r && r[dest] == 1
    ensures forall v :: v in r ==> r[v] >= 1
    decreases Measure(graph, rank, dest), 3
  {
    Shift(CalcOrbitCounts(graph, rank, dest))[dest := 1]
  }

  /** `.reduce(joinOrbitCounts, {})` over the branches of `cs`. */
  function SumChildren(graph: Graph, ghost rank: map<string, nat>, cs: seq<string>, ghost bound: nat)
    : (r: Counts)
    requires Ranked(graph, rank)
    requires forall i :: 0 <= i < |cs| ==> Measure(graph, rank, cs[i]) < bound
    ensures forall v :: v in r ==> r[v] >= 1
    ensures cs == [] ==> r == map[]
    decreases bound, 1, |cs|
  {
    if cs == [] then map[]
    else JoinOrbitCounts(SumChildren(graph, rank, cs[..|cs| - 1], bound), Branch(graph, rank, cs[|cs| - 1]))
  }

  // ---------------------------------------------------------------------
  // What the counts are

  /** A chain of bodies, each orbiting the one before it. */
  predicate IsPath(graph: Graph, p: seq<string>)
  {
    |p| >= 1 && forall i :: 0 <= i < |p| - 1 ==> p[i] in graph && p[i + 1] in graph[p[i]]
  }

  /** The bodies that orbit `start`, directly or indirectly. */
  ghost predicate Reachable(graph: Graph, start: string, v: string)
  {
    exists p :: IsPath(graph, p) && |p| >= 2 && p[0] == start && p[|p| - 1] == v
  }

  lemma ChildMeasure(graph: Graph, rank: map<string, nat>, s: string, i: int)
    requires Ranked(graph, rank) && 0 <= i < |Children(graph, s)|
    ensures s in graph && Measure(graph, rank, Children(graph, s)[i]) < Measure(graph, rank, s)
  {
  }

  /** A key of the sum comes from one of the branches. */
  lemma {:induction false} SumKeyFrom(graph: Graph, rank: map<string, nat>, cs: seq<string>, bound: nat, v: string)
    returns (i: int)
    requires Ranked(graph, rank)
    requires forall j :: 0 <= j < |cs| ==> Measure(graph, rank, cs[j]) < bound
    requires v in SumChildren(graph, rank, cs, bound)
    ensures 0 <= i < |cs| && v in Branch(graph, rank, cs[i])
    decreases |cs|
  {
    var init := cs[..|cs| - 1];
    if v in Branch(graph, rank, cs[|cs| - 1]) {
      i := |cs| - 1;
    } else {
      i := SumKeyFrom(graph, rank, init, bound, v);
    }
  }

  /** Every key of every branch is a key of the sum. */
  lemma {:induction false} SumKeyOf(graph: Graph, rank: map<string, nat>, cs: seq<string>, bound: nat, i: int, v: string)
    requires Ranked(graph, rank)
    requires forall j :: 0 <= j < |cs| ==> Measure(graph, rank, cs[j]) < bound
    requires 0 <= i < |cs| && v in Branch(graph, rank, cs[i])
    ensures v in SumChildren(graph, rank, cs, bound)
    decreases |cs|
  {
    if i < |cs| - 1 {
      SumKeyOf(graph, rank, cs[..|cs| - 1], bound, i, v);
    }
  }

  /** Every body counted from `start` orbits it: the lemma returns the
      chain. */
  lemma {:induction false} CountedIsReachable(graph: Graph, rank: map<string, nat>, s: string, v: string)
    returns (p: seq<string>)
    requires Ranked(graph, rank) && v in CalcOrbitCounts(graph, rank, s)
    ensures IsPath(graph, p) && |p| >= 2 && p[0] == s && p[|p| - 1] == v
    decreases Measure(graph, rank, s)
  {
    var cs := Children(graph, s);
    var i := SumKeyFrom(graph, rank, cs, Measure(graph, rank, s), v);
    ChildMeasure(graph, rank, s, i);
    var c := cs[i];
    assert c in graph[s];
    if v == c {
      p := [s, c];
    } else {
      var q := CountedIsReachable(graph, rank, c, v);
      p := [s] + q;
      assert p[1..] == q;
    }
  }

  /** Every body that orbits `start` is counted. */
  lemma {:induction false} ReachableIsCounted(graph: Graph, rank: map<string, nat>, p: seq<string>)
    requires Ranked(graph, rank) && IsPath(graph, p) && |p| >= 2
    ensures p[|p| - 1] in CalcOrbitCounts(graph, rank, p[0])
    decreases |p|
  {
    var s, c, v := p[0], p[1], p[|p| - 1];
    var cs := Children(graph, s);
    var i :| 0 <= i < |cs| && cs[i] == c;
    ChildMeasure(graph, rank, s, i);
    if |p| > 2 {
      var q := p[1..];
      assert IsPath(graph, q);
      ReachableIsCounted(graph, rank, q);
    }
    SumKeyOf(graph, rank, cs, Measure(graph, rank, s), i, v);
  }

  /** The keys of `calcOrbitCounts(graph, start)` are exactly the bodies
      orbiting `start`, directly or indirectly. */
  lemma CountedIffReachable(graph: Graph, rank: map<string, nat>, s: string, v: string)
    requires Ranked(graph, rank)
    ensures v in CalcOrbitCounts(graph, rank, s) <==> Reachable(graph, s, v)
  {
    if v in CalcOrbitCounts(graph, rank, s) {
      var p := CountedIsReachable(graph, rank, s, v);
    }
    if Reachable(graph, s, v) {
      var p :| IsPath(graph, p) && |p| >= 2 && p[0] == s && p[|p| - 1] == v;
      ReachableIsCounted(graph, rank, p);
    }
  }

  // ---------------------------------------------------------------------
  // One parent per body: the counts are distances

  /** Along a chain the rank drops down to its last body, if that body has
      children. */
  lemma {:induction false} RankDrops(graph: Graph, rank: map<string, nat>, p: seq<string>)
    requires Ranked(graph, rank) && IsPath(graph, p) && |p| >= 2 && p[|p| - 1] in graph
    ensures p[0] in rank && rank[p[|p| - 1]] < rank[p[0]]
    decreases |p|
  {
    var n := |p|;
    var u := p[n - 2];
    var i :| 0 <= i < |graph[u]| && graph[u][i] == p[n - 1];
    if n > 2 {
      var q := p[..n - 1];
      assert IsPath(graph, q) by {
        forall k | 0 <= k < |q| - 1 ensures q[k] in graph && q[k + 1] in graph[q[k]] {
          assert q[k] == p[k] && q[k + 1] == p[k + 1];
        }
      }
      RankDrops(graph, rank, q);
    }
  }

  /** No body orbits itself. */
  lemma NoCycle(graph: Graph, rank: map<string, nat>, p: seq<string>)
    requires Ranked(graph, rank) && IsPath(graph, p) && |p| >= 2
    ensures p[0] != p[|p| - 1]
  {
    if p[0] == p[|p| - 1] {
      RankDrops(graph, rank, p);
      assert false;
    }
  }

  /** Every body orbits at most one body, and appears once in its child
      list: the shape of a puzzle input. */
  predicate UniqueParents(graph: Graph)
  {
    forall u1, i1, u2, i2 ::
      (u1 in graph && u2 in graph && 0 <= i1 < |graph[u1]| && 0 <= i2 < |graph[u2]| &&
       graph[u1][i1] == graph[u2][i2]) ==> u1 == u2 && i1 == i2
  }

  /** With one parent per body, two chains between the same bodies are the
      same chain. */
  lemma {:induction false} UniquePath(graph: Graph, rank: map<string, nat>, q1: seq<string>, q2: seq<string>)
    requires Ranked(graph, rank) && UniqueParents(graph)
    requires IsPath(graph, q1) && IsPath(graph, q2)
    requires q1[0] == q2[0] && q1[|q1| - 1] == q2[|q2| - 1]
    ensures q1 == q2
    decreases |q1| + |q2|
  {
    var n1, n2 := |q1|, |q2|;
    if n1 == 1 && n2 == 1 {
    } else if n1 == 1 {
      NoCycle(graph, rank, q2);
      assert false;
    } else if n2 == 1 {
      NoCycle(graph, rank, q1);
      assert false;
    } else {
      var v := q1[n1 - 1];
      var u1, u2 := q1[n1 - 2], q2[n2 - 2];
      var i1 :| 0 <= i1 < |graph[u1]| && graph[u1][i1] == v;
      var i2 :| 0 <= i2 < |graph[u2]| && graph[u2][i2] == v;
      assert u1 == u2;
      var r1, r2 := q1[..n1 - 1], q2[..n2 - 1];
      assert IsPath(graph, r1);
      assert IsPath(graph, r2);
      UniquePath(graph, rank, r1, r2);
    }
  }

  /** When a body shows up in exactly one branch, its count in the sum is
      its count in that branch. */
  lemma {:induction false} SumOnlyBranch(graph: Graph, rank: map<string, nat>, cs: seq<string>, bound: nat, i: int, v: string)
    requires Ranked(graph, rank)
    requires forall j :: 0 <= j < |cs| ==> Measure(graph, rank, cs[j]) < bound
    requires 0 <= i < |cs| && v in Branch(graph, rank, cs[i])
    requires forall j :: 0 <= j < |cs| && j != i ==> v !in Branch(graph, rank, cs[j])
    ensures v in SumChildren(graph, rank, cs, bound)
    ensures SumChildren(graph, rank, cs, bound)[v] == Branch(graph, rank, cs[i])[v]
    decreases |cs|
  {
    var n := |cs|;
    var init := cs[..n - 1];
    if i == n - 1 {
      SumOnlyLast(graph, rank, cs, bound, v);
    } else {
      forall j | 0 <= j < |init| ensures init[j] == cs[j] {
      }
      SumOnlyBranch(graph, rank, init, bound, i, v);
      SumSkipsLast(graph, rank, cs, bound, v);
    }
  }

  /** A body absent from the last branch keeps the count of the sum of the
      others. */
  lemma SumSkipsLast(graph: Graph, rank: map<string, nat>, cs: seq<string>, bound: nat, v: string)
    requires Ranked(graph, rank)
    requires forall j :: 0 <= j < |cs| ==> Measure(graph, rank, cs[j]) < bound
    requires |cs| > 0 && v !in Branch(graph, rank, cs[|cs| - 1])
    requires v in SumChildren(graph, rank, cs[..|cs| - 1], bound)
    ensures v in SumChildren(graph, rank, cs, bound)
    ensures SumChildren(graph, rank, cs, bound)[v] == SumChildren(graph, rank, cs[..|cs| - 1], bound)[v]
  {
    var rest := SumChildren(graph, rank, cs[..|cs| - 1], bound);
    var last := Branch(graph, rank, cs[|cs| - 1]);
    JoinAt(rest, last, v);
  }

  lemma SumOnlyLast(graph: Graph, rank: map<string, nat>, cs: seq<string>, bound: nat, v: string)
    requires Ranked(graph, rank)
    requires forall j :: 0 <= j < |cs| ==> Measure(graph, rank, cs[j]) < bound
    requires |cs| > 0 && v in Branch(graph, rank, cs[|cs| - 1])
    requires forall j :: 0 <= j < |cs| - 1 ==> v !in Branch(graph, rank, cs[j])
    ensures v in SumChildren(graph, rank, cs, bound)
    ensures SumChildren(graph, rank, cs, bound)[v] == Branch(graph, rank, cs[|cs| - 1])[v]
  {
    var n := |cs|;
    var init := cs[..n - 1];
    var rest := SumChildren(graph, rank, init, bound);
    var last := Branch(graph, rank, cs[n - 1]);
    if v in rest {
      var j := SumKeyFrom(graph, rank, init, bound, v);
      assert false;
    }
    JoinAt(rest, last, v);
  }

  lemma JoinAt(a: Counts, b: Counts, v: string)
    ensures v in a && v !in b ==> v in JoinOrbitCounts(a, b) && JoinOrbitCounts(a, b)[v] == a[v]
    ensures v !in a && v in b ==> v in JoinOrbitCounts(a, b) && JoinOrbitCounts(a, b)[v] == b[v]
  {
  }

  /** With one parent per body, the count of a body is the number of orbit
      steps on the chain from `start` to it. */
  lemma {:induction false} CountIsDistance(graph: Graph, rank: map<string, nat>, p: seq<string>)
    requires Ranked(graph, rank) && UniqueParents(graph)
    requires IsPath(graph, p) && |p| >= 2
    ensures p[|p| - 1] in CalcOrbitCounts(graph, rank, p[0])
    ensures CalcOrbitCounts(graph, rank, p[0])[p[|p| - 1]] == |p| - 1
    decreases |p|
  {
    var s, c, v := p[0], p[1], p[|p| - 1];
    var cs := Children(graph, s);
    var i :| 0 <= i < |cs| && cs[i] == c;
    ChildMeasure(graph, rank, s, i);
    var bound := Measure(graph, rank, s);
    forall j | 0 <= j < |cs| ensures Measure(graph, rank, cs[j]) < bound {
      ChildMeasure(graph, rank, s, j);
    }
    forall j | 0 <= j < |cs| && j != i
      ensures v !in Branch(graph, rank, cs[j])
    {
      if v in Branch(graph, rank, cs[j]) {
        OtherBranch(graph, rank, p, i, j);
        assert false;
      }
    }
    if |p| == 2 {
      assert v == c;
    } else {
      var q := p[1..];
      assert IsPath(graph, q);
      CountIsDistance(graph, rank, q);
      NoCycle(graph, rank, q);
    }
    SumOnlyBranch(graph, rank, cs, bound, i, v);
  }

  /** With one parent per body, the end of a chain through one child of its
      start is in no other child's branch. */
  lemma OtherBranch(graph: Graph, rank: map<string, nat>, p: seq<string>, i: int, j: int)
    requires Ranked(graph, rank) && UniqueParents(graph)
    requires IsPath(graph, p) && |p| >= 2
    requires 0 <= i < |Children(graph, p[0])| && Children(graph, p[0])[i] == p[1]
    requires 0 <= j < |Children(graph, p[0])| && j != i
    ensures p[|p| - 1] !in Branch(graph, rank, Children(graph, p[0])[j])
  {
    var s, v := p[0], p[|p| - 1];
    var cs := Children(graph, s);
    var d := cs[j];
    ChildMeasure(graph, rank, s, j);
    if v in Branch(graph, rank, d) {
      var q: seq<string>;
      if v == d {
        q := [s, d];
      } else {
        var r := CountedIsReachable(graph, rank, d, v);
        q := [s] + r;
        assert IsPath(graph, q);
      }
      UniquePath(graph, rank, p, q);
      assert false;
    }
  }

  // ---------------------------------------------------------------------
  // Part one: the sum of the counts

  /** `sum(values(counts))`: the sum of all counts, in no particular
      order. */
  ghost function Total(m: Counts): int
    decreases |m|
  {
    if m == map[] then 0
    else
      var k :| k in m;
      m[k] + Total(m - {k})
  }

  /** The sum does not depend on which key is taken first. */
  lemma {:induction false} TotalPick(m: Counts, k: string)
    requires k in m
    ensures Total(m) == m[k] + Total(m - {k})
    decreases |m|
  {
    var j :| j in m && Total(m) == m[j] + Total(m - {j});
    if j != k {
      TotalPick(m - {j}, k);
      TotalPick(m - {k}, j);
      assert m - {j} - {k} == m - {k} - {j};
    }
  }

  /** Counts of one more body add up with it. */
  lemma TotalAdd(m: Counts, k: string, x: int)
    requires k !in m
    ensures Total(m[k := x]) == Total(m) + x
  {
    TotalPick(m[k := x], k);
    assert m[k := x] - {k} == m;
  }

  /** `joinOrbitCounts` adds the sums. */
  lemma {:induction false} TotalJoin(a: Counts, b: Counts)
    ensures Total(JoinOrbitCounts(a, b)) == Total(a) + Total(b)
    decreases |b|
  {
    if b != map[] {
      var k :| k in b;
      var b' := b - {k};
      TotalJoin(a, b');
      TotalPick(b, k);
      var j, j' := JoinOrbitCounts(a, b), JoinOrbitCounts(a, b');
      JoinMinus(a, b, k);
      TotalPick(j, k);
      if k in a {
        TotalPick(j', k);
      }
    } else {
      assert JoinOrbitCounts(a, b) == a;
    }
  }

  /** Taking a key out of the second map changes the join at that key
      only. */
  lemma JoinMinus(a: Counts, b: Counts, k: string)
    requires k in b
    ensures var j, j' := JoinOrbitCounts(a, b), JoinOrbitCounts(a, b - {k});
            k in j && j[k] == Get(a, k) + b[k] &&
            (k in a ==> k in j' && j'[k] == a[k] && j - {k} == j' - {k}) &&
            (k !in a ==> j - {k} == j')
  {
    var j, j' := JoinOrbitCounts(a, b), JoinOrbitCounts(a, b - {k});
    assert (j - {k}).Keys == (j' - {k}).Keys;
    if k !in a {
      assert (j - {k}).Keys == j'.Keys;
    }
  }

  /** Shifting adds one per key. */
  lemma {:induction false} TotalShift(m: Counts)
    ensures Total(Shift(m)) == Total(m) + |m|
    decreases |m|
  {
    if m != map[] {
      var k :| k in m;
      TotalShift(m - {k});
      TotalPick(m, k);
      TotalPick(Shift(m), k);
      assert Shift(m) - {k} == Shift(m - {k});
    }
  }

  /** A child adds its own orbit, and one more for each body that orbits
      it. */
  lemma TotalBranch(graph: Graph, rank: map<string, nat>, c: string)
    requires Ranked(graph, rank)
    ensures var sub := CalcOrbitCounts(graph, rank, c);
            Total(Branch(graph, rank, c)) == Total(sub) + |sub| + 1
  {
    var sub := CalcOrbitCounts(graph, rank, c);
    if c in sub {
      var p := CountedIsReachable(graph, rank, c, c);
      NoCycle(graph, rank, p);
      assert false;
    }
    TotalShift(sub);
    TotalAdd(Shift(sub), c, 1);
  }

  /** Total orbits from `start`: each child adds its own orbit, its subtree's
      orbits and one more for every body in its subtree. */
  lemma TotalSumChildren(graph: Graph, rank: map<string, nat>, cs: seq<string>, bound: nat)
    requires Ranked(graph, rank)
    requires forall j :: 0 <= j < |cs| ==> Measure(graph, rank, cs[j]) < bound
    requires cs != []
    ensures var sub := CalcOrbitCounts(graph, rank, cs[|cs| - 1]);
            Total(SumChildren(graph, rank, cs, bound)) ==
            Total(SumChildren(graph, rank, cs[..|cs| - 1], bound)) + Total(sub) + |sub| + 1
  {
    TotalJoin(SumChildren(graph, rank, cs[..|cs| - 1], bound), Branch(graph, rank, cs[|cs| - 1]));
    TotalBranch(graph, rank, cs[|cs| - 1]);
  }

  /** `part1`: the number of direct and indirect orbits around "COM". It is
      at least the number of orbiting bodies, and 0 exactly when nothing
      orbits "COM". */
  ghost function Part1(graph: Graph, rank: map<string, nat>): (n: int)
    requires Ranked(graph, rank)
    ensures n >= |CalcOrbitCounts(graph, rank, "COM")|
    ensures n == 0 <==> CalcOrbitCounts(graph, rank, "COM") == map[]
  {
    var counts := CalcOrbitCounts(graph, rank, "COM");
    TotalAtLeastSize(counts);
    Total(counts)
  }

  /** A sum of counts of at least one is at least the number of counts. */
  lemma {:induction false} TotalAtLeastSize(m: Counts)
    requires forall v :: v in m ==> m[v] >= 1
    ensures Total(m) >= |m|
    ensures Total(m) == 0 <==> m == map[]
    decreases |m|
  {
    if m != map[] {
      var k :| k in m;
      TotalPick(m, k);
      TotalAtLeastSize(m - {k});
    }
  }
}
