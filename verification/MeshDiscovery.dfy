/**
 * Discoveries between receivers that keep one frame: one that works, and one that leaves a wrong route
 * because nobody looks whose answer it is.
 */
module MeshDiscovery {
  import opened Octets
  import opened RouteTable
  import opened RouteTableTheory
  import opened MeshProtocol
  import opened MeshNodeTheory
  import opened Graphs
  import opened MeshNetwork
  import opened MeshRoutes
  import opened MeshRuns

  const ONE_FRAME: Kind := Kind(false, true)

  /** One copy in the air, and the step that takes or makes one; then only W is left. */
  lemma StepThenOnly(g: Graph, s: Net, before: set<Copy>, e: Step, W: set<Copy>) returns (es: seq<Step>, t: Net)
    requires InAir(s, before) && OnePerReceiver(before) && Enabled(s, e)
    requires forall c :: c in W ==> c in Next(g, s, e).pending
    ensures Runs(g, ONE_FRAME, s, es, t) && InAir(t, W) && t.sites == Next(g, s, e).sites
  {
    InAirUncrowded(s, before);
    var s1 := Next(g, s, e);
    var fs;
    fs, t := OnlyThese(g, ONE_FRAME, s1, W);
    OneStep(g, ONE_FRAME, s, e);
    es := [e] + fs;
    ThenRuns(g, ONE_FRAME, s, [e], s1, fs, t);
  }

  // ---------------------------------------------------------------- the way back

  /** What lies behind the answer in each relay's buffer: some other node, and not the one that asked. */
  ghost predicate Harmless(past: uint8 -> uint8, path: seq<uint8>, S: set<uint8>)
    requires path != []
  {
    forall i :: 0 < i < |path| - 1 ==> past(path[i]) in S && past(path[i]) != path[i] && past(path[i]) != path[0]
  }

  /** The relays path[1] .. path[k] can take the answer back: each has its route to the one before it. */
  ghost predicate WayBack(s: Net, path: seq<uint8>, k: nat, S: set<uint8>, hops: nat)
    requires k < |path|
  {
    forall i :: 0 < i <= k ==>
      Ready(s, path[i], S, hops) && Lookup(s.sites[path[i]].node.routes, path[0]) == Some(path[i - 1])
  }

  lemma RelayOnPath(g: Graph, path: seq<uint8>, k: nat)
    requires Simple(g, path) && 0 < k < |path| - 1
    ensures var list := path[1..|path| - 1];
            && path[k] in list && path[0] !in list && Last(path) !in list && NoDup(list)
            && path[k] !in {path[0], Last(path)} && path[0] != Last(path) && Adj(g, path[k], path[k - 1])
  {
    var list := path[1..|path| - 1];
    assert list[k - 1] == path[k] && Adj(g, path[k - 1], path[k]);
    assert forall i :: 0 <= i < |list| ==> list[i] == path[1 + i];
  }

  /** One relay takes the answer one node back. */
  lemma ReturnOne(g: Graph, s: Net, path: seq<uint8>, k: nat, f: Frame, past: uint8 -> uint8, S: set<uint8>,
                  hops: nat) returns (es: seq<Step>, t: Net, h: Frame)
    requires Simple(g, path) && 0 < k < |path| - 1 && |path| <= SIZE + 2 && BROADCAST !in path && hops <= 0xff
    requires Harmless(past, path, S) && forall d :: d in path ==> d in S
    requires WayBack(s, path, k, S, hops) && InAir(s, {Copy(path[k], f)})
    requires Answers(f, path[k], path[k + 1], path[0], path[1..|path| - 1], Last(path)) && f.message.hops + k <= hops
    ensures Runs(g, ONE_FRAME, s, es, t) && InAir(t, {Copy(path[k - 1], h)}) && WayBack(t, path, k - 1, S, hops)
    ensures Answers(h, path[k - 1], path[k], path[0], path[1..|path| - 1], Last(path))
    ensures h.message.hops == f.message.hops + 1
    ensures path[0] in s.sites ==> path[0] in t.sites && t.sites[path[0]] == s.sites[path[0]]
  {
    var x := path[k];
    RelayOnPath(g, path, k);
    assert Ready(s, x, S, hops);
    var e, s1;
    e, s1, h := ReturnStep(g, s, x, f, path[0], path[1..|path| - 1], Last(path), path[k - 1], past(x), S, hops);
    es, t := StepThenOnly(g, s, {Copy(x, f)}, e, {Copy(path[k - 1], h)});
    forall i | 0 < i <= k - 1
      ensures Ready(t, path[i], S, hops) && Lookup(t.sites[path[i]].node.routes, path[0]) == Some(path[i - 1])
    {
      assert Ready(s, path[i], S, hops) && path[i] != x;
    }
  }

  /** The answer travels back along the path, and is not lost on the way. */
  lemma {:induction false} ReturnAlong(g: Graph, s: Net, path: seq<uint8>, k: nat, f: Frame, past: uint8 -> uint8,
                                       S: set<uint8>, hops: nat)
    returns (es: seq<Step>, t: Net, h: Frame)
    requires Simple(g, path) && k < |path| - 1 && |path| <= SIZE + 2 && BROADCAST !in path && hops <= 0xff
    requires Harmless(past, path, S) && forall d :: d in path ==> d in S
    requires WayBack(s, path, k, S, hops) && InAir(s, {Copy(path[k], f)})
    requires Answers(f, path[k], path[k + 1], path[0], path[1..|path| - 1], Last(path)) && f.message.hops + k <= hops
    ensures Runs(g, ONE_FRAME, s, es, t) && InAir(t, {Copy(path[0], h)})
    ensures Answers(h, path[0], path[1], path[0], path[1..|path| - 1], Last(path))
    ensures path[0] in s.sites ==> path[0] in t.sites && t.sites[path[0]] == s.sites[path[0]]
    decreases k
  {
    if k == 0 {
      es, t, h := [], s, f;
    } else {
      var es1, s1, f1 := ReturnOne(g, s, path, k, f, past, S, hops);
      var fs;
      fs, t, h := ReturnAlong(g, s1, path, k - 1, f1, past, S, hops);
      es := es1 + fs;
      ThenRuns(g, ONE_FRAME, s, es1, s1, fs, t);
    }
  }

  // ---------------------------------------------------------------- a discovery that works

  /** A node that does not know z yet wants to send to it; everyone on the path can help. */
  ghost predicate CanAsk(g: Graph, s: Net, path: seq<uint8>, S: set<uint8>) {
    && Simple(g, path) && 1 < |path| <= SIZE + 1 && BROADCAST !in path && (forall d :: d in path ==> d in S)
    && path[0] in s.sites && s.sites[path[0]].waiting == None && s.sites[path[0]].node.addr == path[0]
    && Sound(s.sites[path[0]].node.routes) && !Known(s.sites[path[0]].node, Last(path))
    && forall i :: 0 < i < |path| ==> Ready(s, path[i], S, |path| - 2)
  }

  /** The asker broadcasts its request, and the next node on the path hears it. */
  lemma AskOnPath(g: Graph, s: Net, path: seq<uint8>, payload: seq<uint8>, flags: uint8, S: set<uint8>)
    returns (es: seq<Step>, t: Net, f: Frame)
    requires CanAsk(g, s, path, S) && |payload| <= PAYLOAD_MAX
    ensures Runs(g, ONE_FRAME, s, es, t) && InAir(t, {Copy(path[1], f)}) && Requests(f, path[0], [], Last(path))
    ensures forall i :: 0 < i < |path| ==> Ready(t, path[i], S, |path| - 2)
    ensures path[0] in t.sites && t.sites[path[0]].node.addr == path[0] && Sound(t.sites[path[0]].node.routes)
    ensures t.sites[path[0]].waiting == Some(Waiting(Last(path), ROUTER_MAX, payload, flags))
  {
    var es0, s0 := OnlyThese(g, ONE_FRAME, s, {});
    var e, s1;
    e, s1, f := AskStep(g, s0, path[0], Last(path), payload, flags);
    assert Adj(g, path[0], path[1]);
    var fs;
    fs, t := StepThenOnly(g, s0, {}, e, {Copy(path[1], f)});
    forall i | 0 < i < |path|
      ensures Ready(t, path[i], S, |path| - 2)
    {
      assert Ready(s, path[i], S, |path| - 2) && path[i] != path[0];
    }
    es := es0 + fs;
    ThenRuns(g, ONE_FRAME, s, es0, s0, fs, t);
  }

  /** The request reaches the node that is sought, and every relay has its route back. */
  lemma RequestArrives(g: Graph, s: Net, path: seq<uint8>, payload: seq<uint8>, flags: uint8, S: set<uint8>)
    returns (es: seq<Step>, t: Net, f: Frame)
    requires CanAsk(g, s, path, S) && |payload| <= PAYLOAD_MAX
    ensures Runs(g, ONE_FRAME, s, es, t) && InAir(t, {Copy(Last(path), f)}) && Ready(t, Last(path), S, |path| - 2)
    ensures Requests(f, path[0], path[1..|path| - 1], Last(path)) && WayBack(t, path, |path| - 2, S, |path| - 2)
    ensures path[0] in t.sites && t.sites[path[0]].node.addr == path[0] && Sound(t.sites[path[0]].node.routes)
    ensures t.sites[path[0]].waiting == Some(Waiting(Last(path), ROUTER_MAX, payload, flags))
  {
    var es1, s1, f1 := AskOnPath(g, s, path, payload, flags, S);
    assert path[1..1] == [] && {} + {Copy(path[1], f1)} == {Copy(path[1], f1)};
    var fs;
    fs, t, f := TravelAlong(g, ONE_FRAME, s1, path, 1, f1, Last(path), {}, S, |path| - 2);
    assert {} + {Copy(Last(path), f)} == {Copy(Last(path), f)};
    forall i | 0 < i < |path|
      ensures Ready(t, path[i], S, |path| - 2)
    {
      assert Ready(s1, path[i], S, |path| - 2);
    }
    es := es1 + fs;
    ThenRuns(g, ONE_FRAME, s, es1, s1, fs, t);
  }

  /** The answer is sent and comes home. */
  lemma AnswerArrives(g: Graph, s: Net, path: seq<uint8>, f: Frame, past: uint8 -> uint8, S: set<uint8>)
    returns (es: seq<Step>, t: Net, h: Frame)
    requires Simple(g, path) && 1 < |path| <= SIZE + 1 && BROADCAST !in path && forall d :: d in path ==> d in S
    requires InAir(s, {Copy(Last(path), f)}) && Ready(s, Last(path), S, |path| - 2)
    requires Requests(f, path[0], path[1..|path| - 1], Last(path)) && WayBack(s, path, |path| - 2, S, |path| - 2)
    requires path[0] in s.sites && Harmless(past, path, S)
    ensures Runs(g, ONE_FRAME, s, es, t) && InAir(t, {Copy(path[0], h)})
    ensures Answers(h, path[0], path[1], path[0], path[1..|path| - 1], Last(path))
    ensures path[0] in t.sites && t.sites[path[0]] == s.sites[path[0]]
  {
    var hops, list, z := |path| - 2, path[1..|path| - 1], Last(path);
    var before := path[|path| - 2];
    assert [path[0]] + list == path[..|path| - 1] && f.from == before && Adj(g, before, z);
    var e, s1, f1 := AnswerStep(g, s, z, f, path[0], list, S, hops);
    var es1, s2 := StepThenOnly(g, s, {Copy(z, f)}, e, {Copy(before, f1)});
    forall i | 0 < i <= |path| - 2
      ensures Ready(s2, path[i], S, hops) && Lookup(s2.sites[path[i]].node.routes, path[0]) == Some(path[i - 1])
    {
      assert Ready(s, path[i], S, hops) && path[i] != z;
    }
    var fs;
    fs, t, h := ReturnAlong(g, s2, path, |path| - 2, f1, past, S, hops);
    es := es1 + fs;
    ThenRuns(g, ONE_FRAME, s, es1, s2, fs, t);
  }

  /**
   * Along any simple path with fewer than ten relays, within their hop limits, there is a run in which
   * the node that asks gets its route to the node it seeks and the waiting message goes out on it,
   * whatever lies behind the answer in the relays' buffers but the asker's own address.
   */
  lemma DiscoveryCanSucceed(g: Graph, s: Net, path: seq<uint8>, payload: seq<uint8>, flags: uint8,
                            past: uint8 -> uint8, S: set<uint8>) returns (es: seq<Step>, t: Net, id: uint8)
    requires CanAsk(g, s, path, S) && |payload| <= PAYLOAD_MAX && Harmless(past, path, S)
    ensures Runs(g, ONE_FRAME, s, es, t)
    ensures path[0] in t.sites && t.sites[path[0]].waiting == None
    ensures Lookup(t.sites[path[0]].node.routes, Last(path)) == Some(path[1])
    ensures var m := Routed(Last(path), path[0], 0, id, flags, [APPLICATION] + payload);
            Copy(path[1], Frame(path[1], path[0], m)) in t.pending
  {
    var es1, s1, f := RequestArrives(g, s, path, payload, flags, S);
    var es2, s2, h := AnswerArrives(g, s1, path, f, past, S);
    assert Adj(g, path[0], path[1]);
    var e3;
    e3, t := TakeAnswerStep(g, s2, path[0], h, path[1..|path| - 1], Last(path), 0);
    id :| Copy(h.from, Frame(h.from, path[0], Routed(Last(path), path[0], 0, id, flags, [APPLICATION] + payload)))
          in t.pending;
    InAirUncrowded(s2, {Copy(path[0], h)});
    OneStep(g, ONE_FRAME, s2, e3);
    ThenRuns(g, ONE_FRAME, s, es1, s1, es2, s2);
    es := es1 + es2 + [e3];
    ThenRuns(g, ONE_FRAME, s, es1 + es2, s2, [e3], t);
  }

  // ---------------------------------------------------------------- and one that misleads

  /** n asks for its neighbour b, who answers; n does not wait for the answer. */
  lemma AskAndGiveUp(g: Graph, s: Net, n: uint8, b: uint8) returns (es: seq<Step>, t: Net, h: Frame)
    requires Adj(g, n, b) && n != BROADCAST && b != BROADCAST && Ready(s, b, {n, b}, 0)
    requires n in s.sites && s.sites[n].waiting == None && s.sites[n].node.addr == n && !Known(s.sites[n].node, b)
    ensures Runs(g, ONE_FRAME, s, es, t) && InAir(t, {Copy(n, h)}) && Answers(h, n, b, n, [], b)
    ensures n in t.sites && t.sites[n].waiting == None && t.sites[n].node.addr == n
    ensures t.sites[n].node.routes == s.sites[n].node.routes
  {
    var es0, s0 := OnlyThese(g, ONE_FRAME, s, {});
    var e1, s1, f := AskStep(g, s0, n, b, [], 0);
    var es2, s2 := StepThenOnly(g, s0, {}, e1, {Copy(b, f)});
    assert Ready(s2, b, {n, b}, 0);
    var e3, s3;
    e3, s3, h := AnswerStep(g, s2, b, f, n, [], {n, b}, 0);
    var es4, s4 := StepThenOnly(g, s2, {Copy(b, f)}, e3, {Copy(n, h)});
    t := Next(g, s4, GiveUp(n));
    OneStep(g, ONE_FRAME, s4, GiveUp(n));
    ThenRuns(g, ONE_FRAME, s, es0, s0, es2, s2);
    ThenRuns(g, ONE_FRAME, s, es0 + es2, s2, es4, s4);
    es := es0 + es2 + es4 + [GiveUp(n)];
    ThenRuns(g, ONE_FRAME, s, es0 + es2 + es4, s4, [GiveUp(n)], t);
  }

  /**
   * n asks for its neighbour b and gives up before the answer comes; then it asks for c, takes b's answer
   * for c's, and sends b what was meant for c. On a tree that is wrong when c is another neighbour.
   */
  lemma LateAnswerMisleads(g: Graph, s: Net, n: uint8, b: uint8, c: uint8, payload: seq<uint8>)
    returns (es: seq<Step>, t: Net)
    requires Adj(g, n, b) && n != BROADCAST && b != BROADCAST && Ready(s, b, {n, b}, 0)
    requires n in s.sites && s.sites[n].waiting == None && s.sites[n].node.addr == n && Sound(s.sites[n].node.routes)
    requires !Known(s.sites[n].node, b) && !Known(s.sites[n].node, c) && |payload| <= PAYLOAD_MAX
    ensures Runs(g, ONE_FRAME, s, es, t) && n in t.sites && Lookup(t.sites[n].node.routes, c) == Some(b)
    ensures exists id :: Copy(b, Frame(b, n, Routed(c, n, 0, id, 0, [APPLICATION] + payload))) in t.pending
    ensures UniquePaths(g) && Adj(g, n, c) && b != c ==> !Correct(g, n, c, b)
  {
    var es1, s1, h := AskAndGiveUp(g, s, n, b);
    var e2, s2, f := AskStep(g, s1, n, c, payload, 0);
    var es3, s3 := StepThenOnly(g, s1, {Copy(n, h)}, e2, {Copy(n, h)});
    var e4;
    e4, t := TakeAnswerStep(g, s3, n, h, [], b, 0);
    InAirUncrowded(s3, {Copy(n, h)});
    OneStep(g, ONE_FRAME, s3, e4);
    ThenRuns(g, ONE_FRAME, s, es1, s1, es3, s3);
    es := es1 + es3 + [e4];
    ThenRuns(g, ONE_FRAME, s, es1 + es3, s3, [e4], t);
    if UniquePaths(g) && Adj(g, n, c) && b != c {
      NeighbourIsNoWay(g, n, b, c);
    }
  }
}
