/**
 * Loops of next hops between receivers that keep one frame: exactly the destinations that have two ways
 * to a cycle can get one.
 */
module MeshRings {
  import opened Octets
  import opened RouteTable
  import opened RouteTableTheory
  import opened MeshProtocol
  import opened MeshNodeTheory
  import opened Graphs
  import opened MeshNetwork
  import opened MeshRoutes
  import opened MeshRuns
  import opened MeshLoops
  import opened MeshOneFrame

  /** c[0]'s next hop to d is c[1], c[1]'s is c[2], ..., and the last one's is c[0]. */
  ghost predicate RoundAndRound(s: Net, c: seq<uint8>, d: uint8) {
    && c != []
    && (forall i, j :: 0 <= i < |c| - 1 && j == i + 1 ==> RouteIs(s, c[i], d, c[j]))
    && RouteIs(s, Last(c), d, c[0])
  }

  /** p leads from d to the cycle c and touches it only there. */
  predicate Enters(g: Graph, c: seq<uint8>, d: uint8, p: seq<uint8>) {
    && Simple(g, p) && p[0] == d && Last(p) in c
    && forall i :: 0 <= i < |p| - 1 ==> p[i] !in c
  }

  /** A cycle that d is not on, and two ways from d to different nodes of it. */
  ghost predicate TwoWays(g: Graph, d: uint8, c: seq<uint8>, p: seq<uint8>, q: seq<uint8>) {
    Cycle(g, c) && d !in c && Enters(g, c, d, p) && Enters(g, c, d, q) && Last(p) != Last(q)
  }

  ghost predicate HasTwoWays(g: Graph, d: uint8) {
    exists c, p, q :: TwoWays(g, d, c, p, q)
  }

  ghost predicate OneFrameLoop(g: Graph, s: Net, d: uint8) {
    exists es, t, c :: Runs(g, SINGLE, s, es, t) && RoundAndRound(t, c, d)
  }

  // ---------------------------------------------------------------- a loop means two ways

  lemma {:induction false} ShortestRound(s: Net, c: seq<uint8>, d: uint8) returns (r: seq<uint8>)
    requires RoundAndRound(s, c, d)
    ensures RoundAndRound(s, r, d) && NoDup(r)
    decreases |c|
  {
    if NoDup(c) {
      r := c;
    } else {
      var i, j :| 0 <= i < j < |c| && c[i] == c[j];
      assert RouteIs(s, c[j - 1], d, c[j]);
      assert forall k :: 0 <= k < j - i ==> c[i..j][k] == c[i + k];
      r := ShortestRound(s, c[i..j], d);
    }
  }

  /** Where c[i] sends what is for d. */
  function After(c: seq<uint8>, i: nat): uint8
    requires i < |c|
  {
    if i == |c| - 1 then c[0] else c[i + 1]
  }

  lemma RoundIsCycle(g: Graph, H: nat, t: Net, c: seq<uint8>, d: uint8)
    requires OneFrameInv(g, H, t) && d in g.nodes && RoundAndRound(t, c, d) && NoDup(c)
    ensures Cycle(g, c) && d !in c
    ensures forall i :: 0 <= i < |c| ==> Correct(g, c[i], d, After(c, i))
  {
    forall i | 0 <= i < |c|
      ensures Correct(g, c[i], d, After(c, i)) && Adj(g, c[i], After(c, i)) && c[i] != d
    {
      assert RouteIs(t, c[i], d, After(c, i));
      LookupCorrect(g, c[i], t.sites[c[i]].node.routes, d);
      FirstHopIsNeighbour(g, c[i], d, After(c, i));
    }
    assert !PointAtEachOther(t, c[0], Last(c), d);
    assert |c| != 1 && |c| != 2;
    assert forall i :: 0 <= i < |c| - 1 ==> After(c, i) == c[i + 1];
  }

  /** The last node of path that is on c. */
  function LastOn(path: seq<uint8>, c: seq<uint8>, i: nat): (k: nat)
    requires i < |path| && path[0] in c
    ensures k <= i && path[k] in c && forall j :: k < j <= i ==> path[j] !in c
  {
    if path[i] in c then i else LastOn(path, c, i - 1)
  }

  lemma WayInFrom(g: Graph, c: seq<uint8>, path: seq<uint8>) returns (p: seq<uint8>)
    requires Simple(g, path) && path[0] in c && Last(path) !in c
    ensures Enters(g, c, Last(path), p) && Last(p) in path
  {
    var k := LastOn(path, c, |path| - 1);
    PartOfPath(g, path, k, |path|);
    var rest := path[k..|path|];
    ReversePath(g, rest);
    p := Reverse(rest);
    assert forall i :: 0 <= i < |p| ==> p[i] == path[|path| - 1 - i];
  }

  /** If v sends what is for d to h, there is a way from h that avoids v. */
  lemma WayAvoiding(g: Graph, c: seq<uint8>, d: uint8, v: uint8, h: uint8) returns (q: seq<uint8>)
    requires Correct(g, v, d, h) && h in c && d !in c
    ensures Enters(g, c, d, q) && Last(q) != v
  {
    var path :| Leads(g, path, v, d, h);
    PartOfPath(g, path, 1, |path|);
    var rest := path[1..|path|];
    assert rest[0] == h && Last(rest) == d && v !in rest;
    q := WayInFrom(g, c, rest);
  }

  /** Each way in avoids one node of the cycle, and so there are two of them. */
  lemma RoundHasTwoWays(g: Graph, H: nat, t: Net, c: seq<uint8>, d: uint8)
    requires OneFrameInv(g, H, t) && d in g.nodes && RoundAndRound(t, c, d) && NoDup(c)
    ensures HasTwoWays(g, d)
  {
    RoundIsCycle(g, H, t, c, d);
    assert Correct(g, Last(c), d, After(c, |c| - 1));
    var p := WayAvoiding(g, c, d, Last(c), c[0]);
    var i :| 0 <= i < |c| && c[i] == Last(p);
    var q := WayAvoiding(g, c, d, c[i], After(c, i));
    assert TwoWays(g, d, c, p, q);
  }

  // ---------------------------------------------------------------- a cycle that starts where p enters it

  lemma Rotated(g: Graph, c: seq<uint8>, i: nat) returns (r: seq<uint8>)
    requires Cycle(g, c) && i < |c|
    ensures Cycle(g, r) && |r| == |c| && r[0] == c[i] && forall x :: x in r <==> x in c
  {
    if i == 0 {
      r := c;
    } else {
      PartOfPath(g, c, i, |c|);
      PartOfPath(g, c, 0, i);
      assert c == c[0..i] + c[i..|c|];
      assert forall x :: x in c[i..|c|] ==> x !in c[0..i];
      JoinPaths(g, c[i..|c|], c[0..i]);
      assert Adj(g, c[i - 1], c[i]);
      r := c[i..|c|] + c[0..i];
    }
  }

  lemma Reversed(g: Graph, c: seq<uint8>) returns (r: seq<uint8>)
    requires Cycle(g, c)
    ensures Cycle(g, r) && |r| == |c| && r[0] == c[0] && r[1] == Last(c) && forall x :: x in r <==> x in c
  {
    r := [c[0]] + Reverse(c[1..]);
    BothWays(g, c);
    assert Adj(g, c[0], c[1]);
    forall x | x in c
      ensures x in r
    {
      var i :| 0 <= i < |c| && c[i] == x;
      assert r[if i == 0 then 0 else |c| - i] == x;
    }
    forall x | x in r
      ensures x in c
    {
      var i :| 0 <= i < |r| && r[i] == x;
      assert c[if i == 0 then 0 else |c| - i] == x;
    }
  }

  /** p enters at r[0], q at some later node but the last. */
  lemma Arranged(g: Graph, d: uint8, c: seq<uint8>, p: seq<uint8>, q: seq<uint8>) returns (r: seq<uint8>, j: nat)
    requires TwoWays(g, d, c, p, q)
    ensures TwoWays(g, d, r, p, q) && r[0] == Last(p) && 0 < j < |r| - 1 && r[j] == Last(q)
  {
    var i :| 0 <= i < |c| && c[i] == Last(p);
    r := Rotated(g, c, i);
    j :| 0 <= j < |r| && r[j] == Last(q);
    if j == |r| - 1 {
      r := Reversed(g, r);
      j := 1;
    }
  }

  // ---------------------------------------------------------------- two ways allow a loop

  lemma SimpleIsShort(g: Graph, p: seq<uint8>)
    requires Simple(g, p)
    ensures |p| <= |g.nodes|
  {
    CountMembers(p);
    MembersAtMost(g.nodes);
    SubsetIsSmaller(Members(p), Members(g.nodes));
  }

  /** Everyone but d can pass on requests for z, an address that no node has, and d does not know z. */
  ghost predicate AllReady(g: Graph, s: Net, d: uint8, z: uint8) {
    && |g.nodes| <= SIZE + 1 && z !in g.nodes && z != BROADCAST && d in g.nodes
    && d in s.sites && s.sites[d].node.addr == d && !Known(s.sites[d].node, z)
    && forall y :: y in g.nodes && y != d ==> Ready(s, y, Members(g.nodes), |g.nodes|)
  }

  /** d's next hops of the nodes in between are the same in s and t, but for those of moved. */
  ghost predicate Others(s: Net, t: Net, d: uint8, moved: seq<uint8>) {
    forall y, h :: y !in moved && y != d && RouteIs(s, y, d, h) ==> RouteIs(t, y, d, h)
  }

  /** d asks, when it is not asking already, and next hears it. */
  lemma AskNext(g: Graph, s: Net, d: uint8, z: uint8, next: uint8, kept: set<Copy>)
    returns (es: seq<Step>, t: Net, f: Frame)
    requires AllReady(g, s, d, z) && s.sites[d].waiting == None && Adj(g, d, next)
    requires InAir(s, kept) && OnePerReceiver(kept)
    ensures Runs(g, SINGLE, s, es, t) && AllReady(g, t, d, z) && t.sites[d].waiting != None && Others(s, t, d, [])
    ensures InAir(t, kept + {Copy(next, f)}) && Requests(f, d, [], z)
  {
    var e, s1;
    e, s1, f := AskStep(g, s, d, z, [], 0);
    InAirUncrowded(s, kept);
    var fs;
    fs, t := OnlyThese(g, SINGLE, s1, kept + {Copy(next, f)});
    OneStep(g, SINGLE, s, e);
    es := [e] + fs;
    ThenRuns(g, SINGLE, s, [e], s1, fs, t);
    forall y | y in g.nodes && y != d
      ensures Ready(t, y, Members(g.nodes), |g.nodes|)
    {
      assert Ready(s, y, Members(g.nodes), |g.nodes|);
    }
  }

  lemma StopAsking(g: Graph, s: Net, d: uint8, z: uint8, kept: set<Copy>) returns (es: seq<Step>, t: Net)
    requires AllReady(g, s, d, z) && s.sites[d].waiting != None && InAir(s, kept)
    ensures Runs(g, SINGLE, s, es, t) && AllReady(g, t, d, z) && t.sites[d].waiting == None && Others(s, t, d, [])
    ensures InAir(t, kept)
  {
    t := Next(g, s, GiveUp(d));
    es := [GiveUp(d)];
    OneStep(g, SINGLE, s, GiveUp(d));
    forall y | y in g.nodes && y != d
      ensures Ready(t, y, Members(g.nodes), |g.nodes|)
    {
      assert Ready(s, y, Members(g.nodes), |g.nodes|);
    }
  }

  /** d's request goes along path from path[k], as far as the last node, which does not hear it yet. */
  lemma GoAlong(g: Graph, s: Net, path: seq<uint8>, k: nat, f: Frame, z: uint8, kept: set<Copy>)
    returns (es: seq<Step>, t: Net, h: Frame)
    requires Simple(g, path) && 0 < k < |path| && AllReady(g, s, path[0], z) && s.sites[path[0]].waiting != None
    requires InAir(s, kept + {Copy(path[k], f)}) && Wait(kept, path, k, SINGLE) && Requests(f, path[0], path[1..k], z)
    ensures Runs(g, SINGLE, s, es, t) && AllReady(g, t, path[0], z) && t.sites[path[0]].waiting != None
    ensures InAir(t, kept + {Copy(Last(path), h)}) && Requests(h, path[0], path[1..|path| - 1], z)
    ensures Others(s, t, path[0], path[k..|path| - 1])
    ensures forall i, j :: k <= i < |path| - 1 && j == i - 1 ==> RouteIs(t, path[i], path[0], path[j])
  {
    SimpleIsShort(g, path);
    assert z !in path[..|path| - 1] && forall x :: x in path ==> x in Members(g.nodes);
    forall i | k <= i < |path| - 1
      ensures Ready(s, path[i], Members(g.nodes), |g.nodes|)
    {
      assert path[i] != path[0];
    }
    es, t, h := TravelAlong(g, SINGLE, s, path, k, f, z, kept, Members(g.nodes), |g.nodes|);
    assert path[0] !in path[k..|path| - 1];
  }

  /** And the last node hears it. */
  lemma HearLast(g: Graph, s: Net, path: seq<uint8>, f: Frame, z: uint8, kept: set<Copy>)
    returns (es: seq<Step>, t: Net)
    requires Simple(g, path) && 1 < |path| && AllReady(g, s, path[0], z) && s.sites[path[0]].waiting != None
    requires InAir(s, kept + {Copy(Last(path), f)}) && Requests(f, path[0], path[1..|path| - 1], z)
    requires OnePerReceiver(kept) && forall c :: c in kept ==> c.at != Last(path)
    ensures Runs(g, SINGLE, s, es, t) && InAir(t, kept)
    ensures AllReady(g, t, path[0], z) && t.sites[path[0]].waiting != None
    ensures Others(s, t, path[0], [Last(path)]) && RouteIs(t, Last(path), path[0], path[|path| - 2])
  {
    var x, list, S := Last(path), path[1..|path| - 1], Members(g.nodes);
    SimpleIsShort(g, path);
    assert [path[0]] + list == path[..|path| - 1];
    assert Ready(s, x, S, |g.nodes|);
    InAirUncrowded(s, kept + {Copy(x, f)});
    var e, s1, h := RelayStep(g, s, x, f, path[0], list, z, S, |g.nodes|);
    var fs;
    fs, t := OnlyThese(g, SINGLE, s1, kept);
    OneStep(g, SINGLE, s, e);
    es := [e] + fs;
    ThenRuns(g, SINGLE, s, [e], s1, fs, t);
    forall y | y in g.nodes && y != path[0]
      ensures Ready(t, y, S, |g.nodes|)
    {
      assert Ready(s, y, S, |g.nodes|);
    }
  }

  /** The whole way: from path[k] on everyone takes the node before for the way to path[0]. */
  lemma GoAllAlong(g: Graph, s: Net, path: seq<uint8>, k: nat, f: Frame, z: uint8, kept: set<Copy>)
    returns (es: seq<Step>, t: Net)
    requires Simple(g, path) && 0 < k < |path| && AllReady(g, s, path[0], z) && s.sites[path[0]].waiting != None
    requires InAir(s, kept + {Copy(path[k], f)}) && Requests(f, path[0], path[1..k], z)
    requires OnePerReceiver(kept) && forall c :: c in kept ==> c.at !in path
    ensures Runs(g, SINGLE, s, es, t) && InAir(t, kept)
    ensures AllReady(g, t, path[0], z) && t.sites[path[0]].waiting != None
    ensures Others(s, t, path[0], path[k..])
    ensures forall i, j :: k <= i < |path| && j == i - 1 ==> RouteIs(t, path[i], path[0], path[j])
  {
    assert forall x :: x in path[k..] ==> x in path;
    var es1, s1, h := GoAlong(g, s, path, k, f, z, kept);
    var fs;
    fs, t := HearLast(g, s1, path, h, z, kept);
    es := es1 + fs;
    ThenRuns(g, SINGLE, s, es1, s1, fs, t);
    LastOfAll(s, s1, t, path, k);
  }

  lemma LastOfAll(s: Net, s1: Net, t: Net, path: seq<uint8>, k: nat)
    requires NoDup(path) && 0 < k < |path|
    requires Others(s, s1, path[0], path[k..|path| - 1]) && Others(s1, t, path[0], [Last(path)])
    requires forall i, j :: k <= i < |path| - 1 && j == i - 1 ==> RouteIs(s1, path[i], path[0], path[j])
    requires RouteIs(t, Last(path), path[0], path[|path| - 2])
    ensures Others(s, t, path[0], path[k..])
    ensures forall i, j :: k <= i < |path| && j == i - 1 ==> RouteIs(t, path[i], path[0], path[j])
  {
    assert path[k..] == path[k..|path| - 1] + [Last(path)];
    forall i, j | k <= i < |path| && j == i - 1
      ensures RouteIs(t, path[i], path[0], path[j])
    {
      if i < |path| - 1 {
        assert RouteIs(s1, path[i], path[0], path[j]) && path[i] !in [Last(path)] && path[i] != path[0];
      }
    }
  }

  lemma WayOn(g: Graph, c: seq<uint8>, d: uint8, p: seq<uint8>, tail: seq<uint8>)
    requires Enters(g, c, d, p) && Simple(g, tail) && Adj(g, Last(p), tail[0])
    requires forall x :: x in tail ==> x in c && x != Last(p)
    ensures Simple(g, p + tail) && (p + tail)[0] == d && Last(p + tail) == Last(tail)
  {
    forall x | x in p
      ensures x !in tail
    {
      var i :| 0 <= i < |p| && p[i] == x;
    }
    JoinPaths(g, p, tail);
  }

  /** The ring r in two parts, from where p enters it up to where q does, and from there back. */
  lemma TwoParts(g: Graph, r: seq<uint8>, j: nat)
    requires Cycle(g, r) && 0 < j < |r| - 1
    ensures var near, far := r[1..j + 1], r[j + 1..] + [r[0]];
            && Simple(g, near) && Adj(g, r[0], near[0]) && Simple(g, far) && Adj(g, r[j], far[0])
            && (forall x :: x in near ==> x in r && x != r[0] && x != r[j + 1])
            && (forall x :: x in far ==> x in r && x != r[j])
            && far[0] == r[j + 1] && Simple(g, [r[j + 1]])
  {
    var near, rest := r[1..j + 1], r[j + 1..];
    assert Adj(g, r[0], r[1]) && Adj(g, r[j], r[j + 1]);
    PartOfPath(g, r, 1, j + 1);
    assert forall i :: 0 <= i < |near| ==> near[i] == r[1 + i];
    PartOfPath(g, r, j + 1, |r|);
    assert r[j + 1..|r|] == rest && forall i :: 0 <= i < |rest| ==> rest[i] == r[j + 1 + i];
    assert Simple(g, [r[0]]);
    JoinPaths(g, rest, [r[0]]);
  }

  /** The three paths: from q one node on, from p up to where q enters, and from there round to the start. */
  lemma ThreePaths(g: Graph, d: uint8, r: seq<uint8>, p: seq<uint8>, q: seq<uint8>, j: nat)
    requires TwoWays(g, d, r, p, q) && r[0] == Last(p) && 0 < j < |r| - 1 && r[j] == Last(q)
    ensures Simple(g, q + [r[j + 1]]) && Simple(g, p + r[1..j + 1]) && Simple(g, q + (r[j + 1..] + [r[0]]))
    ensures |p| > 1 && |q| > 1 && r[j + 1] !in p + r[1..j + 1]
  {
    TwoParts(g, r, j);
    WayOn(g, r, d, q, [r[j + 1]]);
    WayOn(g, r, d, p, r[1..j + 1]);
    WayOn(g, r, d, q, r[j + 1..] + [r[0]]);
    assert d == p[0] && d == q[0] && d !in r;
    forall i | 0 <= i < |p|
      ensures p[i] != r[j + 1]
    {
      assert i == |p| - 1 ==> p[i] == r[0];
    }
  }

  /** One copy by way of q waits at the node after the one where q enters. */
  lemma HoldOne(g: Graph, s: Net, d: uint8, z: uint8, r: seq<uint8>, p: seq<uint8>, q: seq<uint8>, j: nat)
    returns (es: seq<Step>, t: Net, h: Frame)
    requires TwoWays(g, d, r, p, q) && r[0] == Last(p) && 0 < j < |r| - 1 && r[j] == Last(q)
    requires AllReady(g, s, d, z) && s.sites[d].waiting == None && InAir(s, {})
    ensures Runs(g, SINGLE, s, es, t) && AllReady(g, t, d, z) && t.sites[d].waiting != None
    ensures InAir(t, {Copy(r[j + 1], h)}) && Requests(h, d, q[1..], z)
  {
    var path := q + [r[j + 1]];
    ThreePaths(g, d, r, p, q, j);
    assert Adj(g, path[0], path[1]) && path[1..1] == [] && path[1..|path| - 1] == q[1..];
    var es1, s1, f := AskNext(g, s, d, z, path[1], {});
    var fs;
    fs, t, h := GoAlong(g, s1, path, 1, f, z, {});
    es := es1 + fs;
    ThenRuns(g, SINGLE, s, es1, s1, fs, t);
    assert {} + {Copy(r[j + 1], h)} == {Copy(r[j + 1], h)};
  }

  /** What the path by way of p, round to r[j], says about the ring r. */
  lemma NearRoutes(t: Net, d: uint8, r: seq<uint8>, p: seq<uint8>, j: nat)
    requires 0 < j < |r| && p != [] && r[0] == Last(p)
    requires var path := p + r[1..j + 1];
             forall i, k :: 1 <= i < |path| && k == i - 1 ==> RouteIs(t, path[i], d, path[k])
    ensures forall i, k :: 1 <= i <= j && k == i - 1 ==> RouteIs(t, r[i], d, r[k])
  {
    var path := p + r[1..j + 1];
    forall i, k | 1 <= i <= j && k == i - 1
      ensures RouteIs(t, r[i], d, r[k])
    {
      assert path[|p| - 1 + i] == r[i] && path[|p| - 1 + k] == r[k];
    }
  }

  /** Meanwhile another request goes by way of p, and round as far as where q enters. */
  lemma GoNear(g: Graph, s: Net, d: uint8, z: uint8, r: seq<uint8>, p: seq<uint8>, q: seq<uint8>, j: nat, held: Copy)
    returns (es: seq<Step>, t: Net)
    requires TwoWays(g, d, r, p, q) && r[0] == Last(p) && 0 < j < |r| - 1 && r[j] == Last(q)
    requires AllReady(g, s, d, z) && s.sites[d].waiting != None && InAir(s, {held}) && held.at == r[j + 1]
    ensures Runs(g, SINGLE, s, es, t) && AllReady(g, t, d, z) && t.sites[d].waiting != None && InAir(t, {held})
    ensures forall i, k :: 1 <= i <= j && k == i - 1 ==> RouteIs(t, r[i], d, r[k])
  {
    var path := p + r[1..j + 1];
    ThreePaths(g, d, r, p, q, j);
    assert Adj(g, path[0], path[1]) && path[1..1] == [];
    assert path[1] in path;
    var es1, s1 := StopAsking(g, s, d, z, {held});
    var es2, s2, f := AskNext(g, s1, d, z, path[1], {held});
    var es3;
    es3, t := GoAllAlong(g, s2, path, 1, f, z, {held});
    ThenRuns(g, SINGLE, s, es1, s1, es2, s2);
    es := es1 + es2 + es3;
    ThenRuns(g, SINGLE, s, es1 + es2, s2, es3, t);
    NearRoutes(t, d, r, p, j);
  }

  /** What the path by way of q, round to r[0], says about the ring r. */
  lemma FarRoutes(t: Net, d: uint8, r: seq<uint8>, q: seq<uint8>, j: nat)
    requires 0 < j < |r| - 1 && q != [] && r[j] == Last(q)
    requires var path := q + (r[j + 1..] + [r[0]]);
             forall i, k :: |q| <= i < |path| && k == i - 1 ==> RouteIs(t, path[i], d, path[k])
    ensures forall i, k :: j + 1 <= i < |r| && k == i - 1 ==> RouteIs(t, r[i], d, r[k])
    ensures RouteIs(t, r[0], d, Last(r))
  {
    var path := q + (r[j + 1..] + [r[0]]);
    forall i, k | j + 1 <= i < |r| && k == i - 1
      ensures RouteIs(t, r[i], d, r[k])
    {
      assert path[|q| + i - j - 1] == r[i] && path[|q| + k - j - 1] == r[k];
    }
    var last := |path| - 1;
    assert path[last] == r[0] && path[last - 1] == Last(r);
  }

  /** Then the copy that waited goes on, round to where p enters. */
  lemma GoFar(g: Graph, s: Net, d: uint8, z: uint8, r: seq<uint8>, p: seq<uint8>, q: seq<uint8>, j: nat, h: Frame)
    returns (es: seq<Step>, t: Net)
    requires TwoWays(g, d, r, p, q) && r[0] == Last(p) && 0 < j < |r| - 1 && r[j] == Last(q)
    requires AllReady(g, s, d, z) && s.sites[d].waiting != None
    requires InAir(s, {Copy(r[j + 1], h)}) && Requests(h, d, q[1..], z)
    ensures Runs(g, SINGLE, s, es, t) && Others(s, t, d, r[j + 1..] + [r[0]])
    ensures forall i, k :: j + 1 <= i < |r| && k == i - 1 ==> RouteIs(t, r[i], d, r[k])
    ensures RouteIs(t, r[0], d, Last(r))
  {
    var tail := r[j + 1..] + [r[0]];
    var path := q + tail;
    ThreePaths(g, d, r, p, q, j);
    assert path[1..|q|] == q[1..] && path[|q|] == r[j + 1] && path[0] == d && path[|q|..] == tail;
    assert {} + {Copy(r[j + 1], h)} == {Copy(r[j + 1], h)};
    es, t := GoAllAlong(g, s, path, |q|, h, z, {});
    FarRoutes(t, d, r, q, j);
  }

  /** The routes of the near side stay. */
  lemma NearStays(g: Graph, s: Net, t: Net, d: uint8, r: seq<uint8>, j: nat)
    requires Cycle(g, r) && d !in r && 0 < j < |r| - 1 && Others(s, t, d, r[j + 1..] + [r[0]])
    requires forall i, k :: 1 <= i <= j && k == i - 1 ==> RouteIs(s, r[i], d, r[k])
    ensures forall i, k :: 1 <= i <= j && k == i - 1 ==> RouteIs(t, r[i], d, r[k])
  {
    forall i, k | 1 <= i <= j && k == i - 1
      ensures RouteIs(t, r[i], d, r[k])
    {
      assert RouteIs(s, r[i], d, r[k]) && r[i] !in r[j + 1..] + [r[0]] && r[i] != d;
    }
  }

  lemma RingIsRound(t: Net, r: seq<uint8>, d: uint8)
    requires r != [] && RouteIs(t, r[0], d, Last(r))
    requires forall i, k :: 1 <= i < |r| && k == i - 1 ==> RouteIs(t, r[i], d, r[k])
    ensures RoundAndRound(t, Reverse(r), d)
  {
    var c := Reverse(r);
    forall i, j | 0 <= i < |c| - 1 && j == i + 1
      ensures RouteIs(t, c[i], d, c[j])
    {
      assert RouteIs(t, r[|r| - 1 - i], d, r[|r| - 2 - i]);
    }
  }

  /** Two ways to a cycle: with one frame for each receiver, two requests can close it. */
  lemma TwoWaysCanLoop(g: Graph, H: nat, s: Net, d: uint8, c: seq<uint8>, p: seq<uint8>, q: seq<uint8>)
    returns (es: seq<Step>, t: Net, ring: seq<uint8>)
    requires Small(g, H, s) && TwoWays(g, d, c, p, q)
    ensures Runs(g, SINGLE, s, es, t) && RoundAndRound(t, ring, d)
  {
    var r, j := Arranged(g, d, c, p, q);
    var z := FreeAddress(g.nodes);
    SmallIsReady(g, H, s, d, z);
    var es1, s1, h := HoldOne(g, s, d, z, r, p, q, j);
    var es2, s2 := GoNear(g, s1, d, z, r, p, q, j, Copy(r[j + 1], h));
    var es3;
    es3, t := GoFar(g, s2, d, z, r, p, q, j, h);
    NearStays(g, s2, t, d, r, j);
    ThenRuns(g, SINGLE, s, es1, s1, es2, s2);
    es := es1 + es2 + es3;
    ThenRuns(g, SINGLE, s, es1 + es2, s2, es3, t);
    ring := Reverse(r);
    RingIsRound(t, r, d);
  }

  lemma SmallIsReady(g: Graph, H: nat, s: Net, d: uint8, z: uint8)
    requires Small(g, H, s) && d in g.nodes && z !in g.nodes && z != BROADCAST
    ensures AllReady(g, s, d, z) && s.sites[d].waiting == None && InAir(s, {})
  {
    MembersAtMost(g.nodes);
    forall y | y in g.nodes
      ensures y in s.sites && Lookup(s.sites[y].node.routes, z) == None
    {
      NothingLive(s.sites[y].node.routes);
    }
  }

  /**
   * Between receivers that keep one frame, in networks of up to eleven nodes that know nothing yet, next
   * hops for d can end up going round exactly if d has two ways to a cycle.
   */
  lemma OneFrameLoopIff(g: Graph, H: nat, s: Net, d: uint8)
    requires Small(g, H, s) && d in g.nodes
    ensures OneFrameLoop(g, s, d) <==> HasTwoWays(g, d)
  {
    if OneFrameLoop(g, s, d) {
      var es, t, c :| Runs(g, SINGLE, s, es, t) && RoundAndRound(t, c, d);
      UnlearntInv(g, H, s);
      RunKeepsOneFrameInv(g, H, s, es, t);
      var r := ShortestRound(t, c, d);
      RoundHasTwoWays(g, H, t, r, d);
    }
    if HasTwoWays(g, d) {
      var c, p, q :| TwoWays(g, d, c, p, q);
      var es, t, ring := TwoWaysCanLoop(g, H, s, d, c, p, q);
    }
  }

  // ---------------------------------------------------------------- the test networks

  /** RH_TEST_NETWORK 2: a square with one diagonal. */
  const DIAMOND: Graph := Graph([1, 2, 3, 4], {(1, 2), (1, 3), (2, 3), (2, 4), (3, 4)})

  lemma DiamondHasTwoWays()
    ensures HasTwoWays(DIAMOND, 1)
  {
    var c: seq<uint8>, p: seq<uint8>, q: seq<uint8> := [2, 4, 3], [1, 2], [1, 3];
    assert Adj(DIAMOND, 2, 4) && Adj(DIAMOND, 4, 3) && Adj(DIAMOND, 3, 2);
    assert Adj(DIAMOND, 1, 2) && Adj(DIAMOND, 1, 3);
    assert Cycle(DIAMOND, c);
    assert TwoWays(DIAMOND, 1, c, p, q);
  }

  /** There the next hops of 2, 3 and 4 for 1 can go round. */
  lemma TestNetworkTwoCanLoop(H: nat, s: Net)
    requires Small(DIAMOND, H, s)
    ensures OneFrameLoop(DIAMOND, s, 1)
  {
    DiamondHasTwoWays();
    OneFrameLoopIff(DIAMOND, H, s, 1);
  }

  /** On the square of RH_TEST_NETWORK 3 none can, for any destination, however many frames are exchanged. */
  lemma TestNetworkThreeNeverLoops(H: nat, s: Net, d: uint8)
    requires Small(SQUARE, H, s) && d in SQUARE.nodes
    ensures !OneFrameLoop(SQUARE, s, d)
  {
    forall c, p, q
      ensures !TwoWays(SQUARE, d, c, p, q)
    {
      NoCycleWithout(c, d);
    }
    OneFrameLoopIff(SQUARE, H, s, d);
  }

  lemma NoCycleWithout(c: seq<uint8>, d: uint8)
    requires d in SQUARE.nodes
    ensures !(Cycle(SQUARE, c) && d !in c)
  {
    if |c| > 3 {
      assert Simple(SQUARE, c) ==> c[0] in SQUARE.nodes && c[1] in SQUARE.nodes;
      assert Simple(SQUARE, c) ==> c[2] in SQUARE.nodes && c[3] in SQUARE.nodes;
    } else if |c| == 3 {
      assert Simple(SQUARE, c) ==> Adj(SQUARE, c[0], c[1]) && Adj(SQUARE, c[1], c[2]);
    }
  }
}
