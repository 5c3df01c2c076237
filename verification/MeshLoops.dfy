/** Cycles in the radio graph, and pairs of nodes that point at each other if receivers can keep two frames. */
module MeshLoops {
  import opened Octets
  import opened RouteTable
  import opened RouteTableTheory
  import opened MeshProtocol
  import opened MeshNodeTheory
  import opened Graphs
  import opened MeshNetwork
  import opened MeshRoutes
  import opened MeshRuns

  // ---------------------------------------------------------------- cycles

  /** At least three nodes, each next to the one before, and the last next to the first. */
  predicate Cycle(g: Graph, c: seq<uint8>) {
    |c| >= 3 && Simple(g, c) && Adj(g, Last(c), c[0])
  }

  lemma CycleMeansTwoPaths(g: Graph, c: seq<uint8>)
    requires Cycle(g, c)
    ensures !UniquePaths(g)
  {
    var short := [c[0], Last(c)];
    assert Simple(g, short) && Last(short) == Last(c) && short[0] == c[0] && |short| != |c|;
  }

  /** The first of p[i], p[i + 1], ... that is on q. */
  function Meeting(p: seq<uint8>, q: seq<uint8>, i: nat): (k: nat)
    requires i < |p| && Last(p) in q
    ensures i <= k < |p| && p[k] in q && forall j :: i <= j < k ==> p[j] !in q
    decreases |p| - i
  {
    if p[i] in q then i else Meeting(p, q, i + 1)
  }

  lemma OnlyTheMeeting(p: seq<uint8>, q: seq<uint8>, i: nat, j: nat)
    requires NoDup(q) && 0 < j < |q| && 0 < i < |p| && p[0] == q[0] && p[i] == q[j]
    requires forall k :: 1 <= k < i ==> p[k] !in q
    ensures forall x :: x in p[0..i + 1] ==> x !in Reverse(q[1..j])
  {
    var back := Reverse(q[1..j]);
    assert forall k :: 0 <= k < |back| ==> back[k] == q[j - 1 - k];
    assert forall k :: 0 <= k <= i ==> p[0..i + 1][k] == p[k];
  }

  lemma ForkMakesACycle(g: Graph, p: seq<uint8>, q: seq<uint8>) returns (c: seq<uint8>)
    requires Simple(g, p) && Simple(g, q) && p[0] == q[0] && Last(p) == Last(q)
    requires |p| > 1 && |q| > 1 && p[1] != q[1]
    ensures Cycle(g, c)
  {
    var i := Meeting(p, q, 1);
    var j :| 0 <= j < |q| && q[j] == p[i];
    assert j > 0 && i + j > 2;
    PartOfPath(g, p, 0, i + 1);
    assert Adj(g, q[0], q[1]) && Adj(g, q[j - 1], q[j]);
    if j == 1 {
      c := p[0..i + 1];
    } else {
      PartOfPath(g, q, 1, j);
      var back := Reverse(q[1..j]);
      ReversePath(g, q[1..j]);
      assert back[0] == q[j - 1] && Last(back) == q[1];
      OnlyTheMeeting(p, q, i, j);
      JoinPaths(g, p[0..i + 1], back);
      c := p[0..i + 1] + back;
    }
  }

  lemma {:induction false} TwoPathsMakeACycle(g: Graph, p: seq<uint8>, q: seq<uint8>) returns (c: seq<uint8>)
    requires Simple(g, p) && Simple(g, q) && p[0] == q[0] && Last(p) == Last(q) && p != q
    ensures Cycle(g, c)
    decreases |p|
  {
    EndsMeetIff(g, p);
    EndsMeetIff(g, q);
    if p[1] != q[1] {
      c := ForkMakesACycle(g, p, q);
    } else {
      PartOfPath(g, p, 1, |p|);
      PartOfPath(g, q, 1, |q|);
      assert p == [p[0]] + p[1..|p|] && q == [q[0]] + q[1..|q|];
      c := TwoPathsMakeACycle(g, p[1..|p|], q[1..|q|]);
    }
  }

  lemma UniquePathsIff(g: Graph)
    ensures UniquePaths(g) <==> !exists c :: Cycle(g, c)
  {
    if exists c :: Cycle(g, c) {
      var c :| Cycle(g, c);
      CycleMeansTwoPaths(g, c);
    }
    if !UniquePaths(g) {
      var p, q :| Simple(g, p) && Simple(g, q) && p[0] == q[0] && Last(p) == Last(q) && p != q;
      var c := TwoPathsMakeACycle(g, p, q);
    }
  }

  // ---------------------------------------------------------------- a loop on every cycle

  /** Runs of discovery steps between receivers that may keep several frames. */
  const QUEUED: Kind := Kind(true, false)

  /** x's next hop to d is y, and y's is x. */
  ghost predicate PointAtEachOther(s: Net, x: uint8, y: uint8, d: uint8) {
    && x in s.sites && Lookup(s.sites[x].node.routes, d) == Some(y)
    && y in s.sites && Lookup(s.sites[y].node.routes, d) == Some(x)
  }

  /** The two ways from c[0] to c[1] and c[2]: directly, and all the way round. */
  lemma BothWays(g: Graph, c: seq<uint8>)
    requires Cycle(g, c)
    ensures var round := [c[0]] + Reverse(c[1..]);
            && Simple(g, c[..3]) && Simple(g, round) && |round| == |c|
            && Last(round) == c[1] && round[|c| - 2] == c[2] && round[1] == Last(c)
            && (forall i :: 0 < i < |c| ==> round[i] == c[|c| - i])
  {
    PartOfPath(g, c, 0, 3);
    PartOfPath(g, c, 1, |c|);
    assert c[0..3] == c[..3] && c[1..|c|] == c[1..];
    ReversePath(g, c[1..]);
    var back := Reverse(c[1..]);
    assert forall i :: 0 <= i < |back| ==> back[i] == c[|c| - 1 - i];
    assert Simple(g, [c[0]]);
    JoinPaths(g, [c[0]], back);
  }

  ghost predicate OthersReady(s: Net, c: seq<uint8>, S: set<uint8>) {
    forall i :: 0 < i < |c| ==> Ready(s, c[i], S, |c| - 1)
  }

  /** Everyone on the cycle can take part in a discovery for z by its first node. */
  ghost predicate RingReady(s: Net, c: seq<uint8>, z: uint8, S: set<uint8>)
    requires c != []
  {
    && c[0] in s.sites && s.sites[c[0]].waiting == None && s.sites[c[0]].node.addr == c[0]
    && !Known(s.sites[c[0]].node, z) && z !in c
    && (forall x :: x in c ==> x in S) && |c| <= SIZE + 1
    && OthersReady(s, c, S)
  }

  lemma StillReady(s: Net, t: Net, c: seq<uint8>, path: seq<uint8>, S: set<uint8>)
    requires c != [] && OthersReady(s, c, S) && 1 < |path| && LearntAlong(s, t, path, 1, S, |c| - 1)
    ensures OthersReady(t, c, S)
  {
    forall i | 0 < i < |c|
      ensures Ready(t, c[i], S, |c| - 1)
    {
      assert Ready(s, c[i], S, |c| - 1);
    }
  }

  /** c[0] asks, and both its neighbours on the cycle hear it. */
  lemma AskRing(g: Graph, s: Net, c: seq<uint8>, z: uint8, S: set<uint8>) returns (es: seq<Step>, t: Net, f: Frame)
    requires Cycle(g, c) && RingReady(s, c, z, S)
    ensures Runs(g, QUEUED, s, es, t) && OthersReady(t, c, S)
    ensures InAir(t, {Copy(Last(c), f)} + {Copy(c[1], f)}) && Requests(f, c[0], [], z)
  {
    var e, s1;
    e, s1, f := AskStep(g, s, c[0], z, [], 0);
    assert Adj(g, c[0], c[1]) && Adj(g, c[0], Last(c));
    var fs;
    fs, t := OnlyThese(g, QUEUED, s1, {Copy(Last(c), f)} + {Copy(c[1], f)});
    forall i | 0 < i < |c|
      ensures Ready(t, c[i], S, |c| - 1)
    {
      assert Ready(s, c[i], S, |c| - 1) && c[i] != c[0];
    }
    OneStep(g, QUEUED, s, e);
    es := [e] + fs;
    ThenRuns(g, QUEUED, s, [e], s1, fs, t);
  }

  /** c[1] passes the request on to c[2]. */
  lemma NearWay(g: Graph, s: Net, c: seq<uint8>, z: uint8, S: set<uint8>, f: Frame)
    returns (es: seq<Step>, t: Net, near: Frame)
    requires Cycle(g, c) && OthersReady(s, c, S) && z !in c && (forall x :: x in c ==> x in S) && |c| <= SIZE + 1
    requires InAir(s, {Copy(Last(c), f)} + {Copy(c[1], f)}) && Requests(f, c[0], [], z)
    ensures Runs(g, QUEUED, s, es, t) && OthersReady(t, c, S)
    ensures InAir(t, {Copy(Last(c), f)} + {Copy(c[2], near)}) && Requests(near, c[0], [c[1]], z)
  {
    var direct := c[..3];
    BothWays(g, c);
    assert forall i :: 0 <= i < 3 ==> direct[i] == c[i];
    assert direct[1..1] == [] && direct[1..2] == [c[1]] && Last(c) != c[1];
    es, t, near := TravelAlong(g, QUEUED, s, direct, 1, f, z, {Copy(Last(c), f)}, S, |c| - 1);
    StillReady(s, t, c, direct, S);
  }

  lemma RoundIsReady(g: Graph, s: Net, c: seq<uint8>, z: uint8, S: set<uint8>)
    requires Cycle(g, c) && OthersReady(s, c, S) && z !in c && forall x :: x in c ==> x in S
    ensures var round := [c[0]] + Reverse(c[1..]);
            && (forall x :: x in round ==> x in S && x != z)
            && (forall i :: 1 <= i < |round| - 1 ==> Ready(s, round[i], S, |c| - 1))
  {
    var round := [c[0]] + Reverse(c[1..]);
    assert forall i :: 0 < i < |c| ==> round[i] == c[|c| - i];
    forall x | x in round
      ensures x in S && x != z
    {
      var i :| 0 <= i < |round| && round[i] == x;
      assert c[if i == 0 then 0 else |c| - i] == x;
    }
  }

  lemma RoundLists(g: Graph, c: seq<uint8>)
    requires Cycle(g, c)
    ensures var round := [c[0]] + Reverse(c[1..]);
            && |round| == |c| && round[1] == Last(c) && Last(round) == c[1] && round[1..1] == []
            && round[1..|c| - 1] == Reverse(c[1..])[..|c| - 2]
            && Last([c[0]] + Reverse(c[1..])[..|c| - 2]) == c[2]
  {
    BothWays(g, c);
    var list := Reverse(c[1..])[..|c| - 2];
    assert ([c[0]] + list)[|c| - 2] == c[2];
  }

  lemma NotOnTheRound(g: Graph, c: seq<uint8>, d: Copy)
    requires Cycle(g, c) && d.frame.from == c[1]
    ensures Wait({d}, [c[0]] + Reverse(c[1..]), 1, QUEUED)
  {
    var round := [c[0]] + Reverse(c[1..]);
    BothWays(g, c);
    forall j | 0 <= j < |round| - 1
      ensures round[j] != c[1]
    {
      assert round[|c| - 1] == c[1];
    }
  }

  /** And it goes all the way round to c[1], while that copy waits. */
  lemma FarWay(g: Graph, s: Net, c: seq<uint8>, z: uint8, S: set<uint8>, f: Frame, near: Frame)
    returns (es: seq<Step>, t: Net, far: Frame)
    requires Cycle(g, c) && OthersReady(s, c, S) && z !in c && (forall x :: x in c ==> x in S) && |c| <= SIZE + 1
    requires InAir(s, {Copy(Last(c), f)} + {Copy(c[2], near)}) && Requests(f, c[0], [], z) && near.from == c[1]
    ensures Runs(g, QUEUED, s, es, t) && OthersReady(t, c, S)
    ensures InAir(t, {Copy(c[2], near)} + {Copy(c[1], far)}) && far.from == c[2]
    ensures Requests(far, c[0], Reverse(c[1..])[..|c| - 2], z)
  {
    var round := [c[0]] + Reverse(c[1..]);
    BothWays(g, c);
    RoundIsReady(g, s, c, z, S);
    RoundLists(g, c);
    NotOnTheRound(g, c, Copy(c[2], near));
    es, t, far := TravelAlong(g, QUEUED, s, round, 1, f, z, {Copy(c[2], near)}, S, |c| - 1);
    StillReady(s, t, c, round, S);
  }

  /** A node at the end of one way hears the node at the end of the other. */
  lemma LastHearing(g: Graph, s: Net, x: uint8, f: Frame, a: uint8, list: seq<uint8>, z: uint8, S: set<uint8>,
                    hops: nat) returns (es: seq<Step>, t: Net)
    requires Ready(s, x, S, hops) && Copy(x, f) in s.pending && Requests(f, a, list, z)
    requires x !in [a] + list && x != z && |list| < hops && |list| <= SIZE && forall d :: d in [a] + list ==> d in S
    ensures Runs(g, QUEUED, s, es, t) && OthersLeft(s, t, Copy(x, f))
    ensures x in t.sites && Lookup(t.sites[x].node.routes, a) == Some(f.from)
  {
    var e, h;
    e, t, h := RelayStep(g, s, x, f, a, list, z, S, hops);
    es := [e];
    OneStep(g, QUEUED, s, e);
  }

  /**
   * Between receivers that can keep two frames: on any cycle of up to eleven nodes within the hop limits,
   * one discovery can leave two neighbours each with the other as the next hop to the node that asked.
   */
  lemma QueuedCycleCanLoop(g: Graph, s: Net, c: seq<uint8>, z: uint8, S: set<uint8>) returns (es: seq<Step>, t: Net)
    requires Cycle(g, c) && RingReady(s, c, z, S)
    ensures Runs(g, QUEUED, s, es, t) && PointAtEachOther(t, c[1], c[2], c[0])
  {
    var hops, list := |c| - 1, Reverse(c[1..])[..|c| - 2];
    var es1, s1, f := AskRing(g, s, c, z, S);
    var es2, s2, near := NearWay(g, s1, c, z, S, f);
    var es3, s3, far := FarWay(g, s2, c, z, S, f, near);
    var es4, s4 := LastHearing(g, s3, c[2], near, c[0], [c[1]], z, S, hops);
    assert forall i :: 0 <= i < |list| ==> list[i] == c[|c| - 1 - i];
    assert Ready(s3, c[1], S, hops) && s4.sites[c[1]] == s3.sites[c[1]];
    var es5;
    es5, t := LastHearing(g, s4, c[1], far, c[0], list, z, S, hops);
    ThenRuns(g, QUEUED, s, es1, s1, es2, s2);
    ThenRuns(g, QUEUED, s, es1 + es2, s2, es3, s3);
    ThenRuns(g, QUEUED, s, es1 + es2 + es3, s3, es4, s4);
    es := es1 + es2 + es3 + es4 + es5;
    ThenRuns(g, QUEUED, s, es1 + es2 + es3 + es4, s4, es5, t);
  }

  // ---------------------------------------------------------------- exactly the graphs that are no trees

  /** Nodes that know nothing yet, few enough for the table and the hop limits. */
  ghost predicate Small(g: Graph, H: nat, s: Net) {
    && Initial(g, H, s) && |g.nodes| <= SIZE + 1
    && (forall x :: x in s.sites ==> s.sites[x].waiting == None && AllInvalid(s.sites[x].node.routes)
                                     && s.sites[x].node.maxHops >= |g.nodes|)
  }

  ghost predicate QueuedPair(g: Graph, s: Net) {
    exists es, t, x, y, d :: Runs(g, QUEUED, s, es, t) && d in g.nodes && PointAtEachOther(t, x, y, d)
  }

  lemma FreeAddress(nodes: seq<uint8>) returns (z: uint8)
    requires |nodes| <= SIZE + 1
    ensures z !in nodes && z != BROADCAST
  {
    var few: seq<uint8> := seq(SIZE + 2, i requires 0 <= i < SIZE + 2 => i);
    CountMembers(few);
    MembersAtMost(nodes);
    if Members(few) <= Members(nodes) {
      SubsetIsSmaller(Members(few), Members(nodes));
    }
    z :| z in Members(few) && z !in Members(nodes);
  }

  lemma TreeCannotLoop(g: Graph, H: nat, s: Net, es: seq<Step>, t: Net, x: uint8, y: uint8, d: uint8)
    requires UniquePaths(g) && Small(g, H, s) && Runs(g, QUEUED, s, es, t) && d in g.nodes
    ensures !PointAtEachOther(t, x, y, d)
  {
    RunsLegally(g, QUEUED, s, es, t);
    LearntRoutesAreGenuine(g, H, s, es);
    if PointAtEachOther(t, x, y, d) {
      LookupCorrect(g, x, t.sites[x].node.routes, d);
      LookupCorrect(g, y, t.sites[y].node.routes, d);
      NotBack(g, x, y, d, y);
    }
  }

  lemma SmallRingIsReady(g: Graph, H: nat, s: Net, c: seq<uint8>, z: uint8)
    requires Small(g, H, s) && Cycle(g, c) && z !in g.nodes && z != BROADCAST
    ensures RingReady(s, c, z, Members(c))
  {
    CountMembers(c);
    MembersAtMost(g.nodes);
    SubsetIsSmaller(Members(c), Members(g.nodes));
    forall i | 0 <= i < |c|
      ensures c[i] in s.sites && Lookup(s.sites[c[i]].node.routes, z) == None
    {
      NothingLive(s.sites[c[i]].node.routes);
    }
  }

  /** Between such receivers, two nodes can end up pointing at each other exactly if the graph is no tree. */
  lemma QueuedPairIff(g: Graph, H: nat, s: Net)
    requires Small(g, H, s)
    ensures QueuedPair(g, s) <==> !UniquePaths(g)
  {
    if QueuedPair(g, s) && UniquePaths(g) {
      var es, t, x, y, d :| Runs(g, QUEUED, s, es, t) && d in g.nodes && PointAtEachOther(t, x, y, d);
      TreeCannotLoop(g, H, s, es, t, x, y, d);
    }
    if !UniquePaths(g) {
      UniquePathsIff(g);
      var c :| Cycle(g, c);
      var z := FreeAddress(g.nodes);
      SmallRingIsReady(g, H, s, c, z);
      var es, t := QueuedCycleCanLoop(g, s, c, z, Members(c));
      assert Runs(g, QUEUED, s, es, t) && c[0] in g.nodes && PointAtEachOther(t, c[1], c[2], c[0]);
    }
  }

  /** RH_TEST_NETWORK 3, a square. */
  const SQUARE: Graph := Graph([1, 2, 3, 4], {(1, 2), (1, 3), (2, 4), (3, 4)})

  lemma QueuedTestNetworkThree(H: nat, s: Net)
    requires Small(SQUARE, H, s)
    ensures QueuedPair(SQUARE, s)
  {
    assert Cycle(SQUARE, [1, 2, 4, 3]);
    CycleMeansTwoPaths(SQUARE, [1, 2, 4, 3]);
    QueuedPairIff(SQUARE, H, s);
  }
}
