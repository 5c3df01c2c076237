/**
 * A failure report on its way back: the node it is for and every relay it passes forget the route that
 * failed, whatever the tables and the links do to it.
 */
module MeshFailures {
  import opened Octets
  import opened RouteTable
  import opened RouteTableTheory
  import opened MeshProtocol
  import opened MeshNodeTheory
  import opened MeshForwarding
  import opened MeshDelivery

  /** Hearing a report forgets that one route; a message of any other type but a response teaches nothing. */
  lemma PeekForgets(t: Slots, me: uint8, m: Routed, from: uint8, past: uint8)
    requires Sound(t) && WellFormed(m.data)
    ensures m.data[0] == FAILURE ==>
              && Lookup(Peek(t, me, m, from, past), m.data[1]) == None
              && (forall d :: d != m.data[1] ==> Lookup(Peek(t, me, m, from, past), d) == Lookup(t, d))
    ensures m.data[0] !in {RESPONSE, FAILURE} ==> Peek(t, me, m, from, past) == t
  {
    if m.data[0] == FAILURE {
      DeleteIsRemoval(t, m.data[1]);
    }
  }

  /** That the route to d failed, told to another node than d by another node than d. */
  predicate Report(m: Routed, d: uint8) {
    m.data == [FAILURE, d] && m.source != d && m.dest != BROADCAST
  }

  /** The nodes afterwards, those the report came to, and whether the last is the one it is for. */
  datatype Journey = Journey(nodes: map<uint8, Node>, visited: seq<uint8>, home: bool)

  predicate PassesOn(m: Routed, r: Routing) {
    && r.delivered == None && r.sends != [] && r.sends[0].acked
    && m.hops < 0xff && r.sends[0].message == m.(hops := m.hops + 1)
  }

  /** The way of m, which has come to x, when acks says in turn whether each link-level send succeeds. */
  function Return(nodes: map<uint8, Node>, x: uint8, from: uint8, m: Routed, acks: seq<bool>): Journey
    requires WellFormed(m.data)
    decreases 0x100 - m.hops
  {
    if x !in nodes then Journey(nodes, [], false) else
    var r := RouterReceive(nodes[x], Frame(x, from, m), 0, acks);
    var after := nodes[x := r.node];
    if PassesOn(m, r) then
      var on := Return(after, r.sends[0].to, x, r.sends[0].message, if acks == [] then [] else acks[1..]);
      on.(visited := [x] + on.visited)
    else Journey(after, [x], r.delivered != None)
  }

  /** A node that hears a report does the same with it in recvfromAck and in doArp's wait. */
  lemma ReportIsTakenAlike(n: Node, f: Frame, space: nat, past: uint8, acks: seq<bool>, a: Asking, address: uint8)
    requires WellFormed(f.message.data) && f.message.data[0] == FAILURE && a.node == n && !a.found
    ensures var r := RouterReceive(n, f, past, acks);
            && MeshReceive(n, f, space, past, acks) == Handled(r.node, r.sends, None)
            && Hear(a, address, Heard(f, past, acks)).node == r.node
            && !Hear(a, address, Heard(f, past, acks)).found
  {
  }

  /** Passing on a report cannot bring the route back, not even if that fails, too. */
  lemma RouteStaysForgotten(n: Node, m: Routed, from: uint8, acks: seq<bool>, d: uint8)
    requires Sound(n.routes) && Lookup(n.routes, d) == None && m.source != d
    ensures Lookup(MeshRoute(n, m, from, acks).node.routes, d) == None
  {
    var own := OwnRoute(n, m, acks);
    DeleteIsRemoval(n.routes, m.dest);
    AddIsUpdate(own.node.routes, m.source, from, Valid);
    DeleteIsRemoval(Add(own.node.routes, m.source, from, Valid), m.source);
  }

  lemma ReportForgets(n: Node, f: Frame, past: uint8, acks: seq<bool>, d: uint8)
    requires Sound(n.routes) && Report(f.message, d)
    ensures var r := RouterReceive(n, f, past, acks);
            && Lookup(r.node.routes, d) == None && Kept(n, r.node)
            && (r.delivered != None <==> f.message.dest == n.addr)
  {
    var m := f.message;
    RouterReceiveKeeps(n, f, past, acks);
    PeekForgets(n.routes, n.addr, m, f.from, past);
    PeekKeeps(n.routes, n.addr, m, f.from, past);
    var peeked := n.(routes := Peek(n.routes, n.addr, m, f.from, past));
    RouteStaysForgotten(peeked, m.(hops := Wrap8(m.hops + 1)), f.from, acks, d);
  }

  ghost predicate AllSound(nodes: map<uint8, Node>) {
    forall x :: x in nodes ==> nodes[x].addr == x && Sound(nodes[x].routes)
  }

  ghost predicate Forgotten(nodes: map<uint8, Node>, x: uint8, d: uint8) {
    x in nodes && Lookup(nodes[x].routes, d) == None
  }

  /** Wherever the report comes to, the route to the failed node is gone, and other nodes stay as they are. */
  lemma {:induction false} ReportClearsItsWay(nodes: map<uint8, Node>, x: uint8, from: uint8, m: Routed,
                                              acks: seq<bool>, d: uint8)
    requires AllSound(nodes) && Report(m, d)
    ensures var j := Return(nodes, x, from, m, acks);
            && AllSound(j.nodes) && j.nodes.Keys == nodes.Keys
            && (forall y :: y in j.visited || Forgotten(nodes, y, d) ==> Forgotten(j.nodes, y, d))
            && (forall y :: y in nodes && y !in j.visited ==> j.nodes[y] == nodes[y])
            && (j.home ==> m.dest in j.visited)
    decreases 0x100 - m.hops
  {
    if x in nodes {
      var r := RouterReceive(nodes[x], Frame(x, from, m), 0, acks);
      var after := nodes[x := r.node];
      ReportForgets(nodes[x], Frame(x, from, m), 0, acks, d);
      assert Forgotten(after, x, d);
      if PassesOn(m, r) {
        ReportClearsItsWay(after, r.sends[0].to, x, r.sends[0].message, if acks == [] then [] else acks[1..], d);
      }
    }
  }

  // ---------------------------------------------------------------- exactly when it comes back

  /** The same routes to one destination, and the same limits. */
  ghost predicate SameWay(before: map<uint8, Node>, after: map<uint8, Node>, dest: uint8) {
    && before.Keys == after.Keys
    && forall x :: x in before ==> && after[x].addr == before[x].addr && after[x].maxHops == before[x].maxHops
                                   && Lookup(after[x].routes, dest) == Lookup(before[x].routes, dest)
  }

  lemma {:induction false} ChainKept(before: map<uint8, Node>, after: map<uint8, Node>, c: seq<uint8>, dest: uint8,
                                     k: nat)
    requires Chain(before, c, dest) && SameWay(before, after, dest)
    ensures Chain(after, c, dest) && (WithinLimits(after, c, k) <==> WithinLimits(before, c, k))
    decreases |c|
  {
    if |c| > 1 {
      ChainKept(before, after, c[1..], dest, k + 1);
    }
  }

  lemma OneHopBack(n: Node, h: uint8, from: uint8, m: Routed, acks: seq<bool>, d: uint8)
    requires Report(m, d) && Sound(n.routes) && n.addr != m.dest && m.dest != d
    requires Lookup(n.routes, m.dest) == Some(h) && acks != [] && acks[0]
    ensures var r := RouterReceive(n, Frame(n.addr, from, m), 0, acks);
            && r.node == n.(routes := Delete(n.routes, d)) && Lookup(r.node.routes, m.dest) == Some(h)
            && (m.hops < n.maxHops ==> PassesOn(m, r) && r.sends[0].to == h)
            && (m.hops >= n.maxHops ==> !PassesOn(m, r) && r.delivered == None)
  {
    DeleteIsRemoval(n.routes, d);
    assert Wrap8(m.hops + 1) == m.hops + 1 || m.hops == 0xff;
  }

  function Forgets(nodes: map<uint8, Node>, x: uint8, d: uint8): map<uint8, Node>
    requires x in nodes
  {
    nodes[x := nodes[x].(routes := Delete(nodes[x].routes, d))]
  }

  lemma ReturnStep(nodes: map<uint8, Node>, x: uint8, h: uint8, from: uint8, m: Routed, acks: seq<bool>, d: uint8)
    requires AllSound(nodes) && x in nodes && Report(m, d) && x != m.dest && m.dest != d
    requires Lookup(nodes[x].routes, m.dest) == Some(h) && acks != [] && acks[0]
    ensures AllSound(Forgets(nodes, x, d)) && SameWay(nodes, Forgets(nodes, x, d), m.dest)
    ensures m.hops < nodes[x].maxHops ==>
              Return(nodes, x, from, m, acks).home ==
              Return(Forgets(nodes, x, d), h, x, m.(hops := m.hops + 1), acks[1..]).home
    ensures m.hops >= nodes[x].maxHops ==> !Return(nodes, x, from, m, acks).home
  {
    OneHopBack(nodes[x], h, from, m, acks, d);
    DeleteIsRemoval(nodes[x].routes, d);
    assert Forgets(nodes, x, d) == nodes[x := RouterReceive(nodes[x], Frame(x, from, m), 0, acks).node];
  }

  lemma ReturnEnds(nodes: map<uint8, Node>, x: uint8, from: uint8, m: Routed, acks: seq<bool>, d: uint8)
    requires AllSound(nodes) && x in nodes && Report(m, d) && x == m.dest
    ensures Return(nodes, x, from, m, acks).home
  {
    ReportForgets(nodes[x], Frame(x, from, m), 0, acks, d);
  }

  lemma WithinOneMore(nodes: map<uint8, Node>, c: seq<uint8>, k: nat)
    requires |c| > 1 && c[0] in nodes && k < nodes[c[0]].maxHops
    ensures WithinLimits(nodes, c, k) <==> WithinLimits(nodes, c[1..], k + 1)
  {
  }

  /** A report m about d sets out along c, over links that work. */
  ghost predicate SetsOut(nodes: map<uint8, Node>, c: seq<uint8>, m: Routed, acks: seq<bool>, d: uint8) {
    && AllSound(nodes) && Report(m, d) && m.dest != d
    && Chain(nodes, c, m.dest) && AllTrue(acks) && |acks| >= |c|
  }

  /** One hop of the way back: what is left of it, which decides. */
  lemma ComesOneHop(nodes: map<uint8, Node>, c: seq<uint8>, from: uint8, m: Routed, acks: seq<bool>, d: uint8)
    returns (after: map<uint8, Node>, on: Routed)
    requires SetsOut(nodes, c, m, acks, d) && |c| > 1 && m.hops < nodes[c[0]].maxHops
    ensures SetsOut(after, c[1..], on, acks[1..], d)
    ensures Return(nodes, c[0], from, m, acks).home == Return(after, c[1], c[0], on, acks[1..]).home
    ensures WithinLimits(nodes, c, m.hops) <==> WithinLimits(after, c[1..], on.hops)
  {
    after, on := Forgets(nodes, c[0], d), m.(hops := m.hops + 1);
    ReturnStep(nodes, c[0], c[1], from, m, acks, d);
    ChainKept(nodes, after, c[1..], m.dest, m.hops + 1);
    WithinOneMore(nodes, c, m.hops);
  }

  lemma StopsHere(nodes: map<uint8, Node>, c: seq<uint8>, from: uint8, m: Routed, acks: seq<bool>, d: uint8)
    requires SetsOut(nodes, c, m, acks, d) && (|c| == 1 || m.hops >= nodes[c[0]].maxHops)
    ensures Return(nodes, c[0], from, m, acks).home <==> |c| == 1
  {
    if |c| == 1 {
      ReturnEnds(nodes, c[0], from, m, acks, d);
    } else {
      ReturnStep(nodes, c[0], c[1], from, m, acks, d);
    }
  }

  /** A report comes back exactly if each node on its way is within its limit. */
  lemma {:induction false} ComesBackIff(nodes: map<uint8, Node>, c: seq<uint8>, from: uint8, m: Routed,
                                        acks: seq<bool>, d: uint8)
    requires SetsOut(nodes, c, m, acks, d)
    ensures Return(nodes, c[0], from, m, acks).home <==> WithinLimits(nodes, c, m.hops)
    decreases |c|
  {
    if |c| == 1 || m.hops >= nodes[c[0]].maxHops {
      StopsHere(nodes, c, from, m, acks, d);
    } else {
      var after, on := ComesOneHop(nodes, c, from, m, acks, d);
      ComesBackIff(after, c[1..], c[0], on, acks[1..], d);
    }
  }

  // ---------------------------------------------------------------- from the broken hop to the next discovery

  /** What a relay that cannot pass on m tells its source. */
  function ReportOf(relay: Node, m: Routed): Routed {
    Routed(m.source, relay.addr, 0, relay.e2e, 0, [FAILURE, m.dest])
  }

  /** The nodes and the report's way after a relay could not pass on m. */
  function Reported(nodes: map<uint8, Node>, relay: uint8, m: Routed, from: uint8, acks: seq<bool>,
                    acksBack: seq<bool>): Journey
    requires relay in nodes
  {
    var out := MeshRoute(nodes[relay], m, from, acks);
    Return(nodes[relay := out.node], from, relay, ReportOf(nodes[relay], m), acksBack)
  }

  /**
   * A relay that cannot pass a message on tells its source. When the report has come back, neither the
   * relay nor any node on the way nor the source has a route to the destination any more, and the
   * source's next send to it floods a new request.
   */
  lemma FailureLeadsToDiscovery(nodes: map<uint8, Node>, relay: uint8, m: Routed, from: uint8, acks: seq<bool>,
                                acksBack: seq<bool>)
    requires AllSound(nodes) && relay in nodes && Fails(nodes[relay], m, acks)
    requires relay !in {m.source, m.dest} && m.source != m.dest && m.source != BROADCAST && from != BROADCAST
    requires Answer(Later(acks, RouterRoute(nodes[relay], m, acks).1))
    ensures var out := MeshRoute(nodes[relay], m, from, acks);
            out.sends != [] && out.sends[|out.sends| - 1] == LinkSend(from, ReportOf(nodes[relay], m), true)
    ensures var j := Reported(nodes, relay, m, from, acks, acksBack);
            && Forgotten(j.nodes, relay, m.dest)
            && (forall y :: y in j.visited ==> Forgotten(j.nodes, y, m.dest))
            && (j.home ==> m.source in j.nodes && AsksAnew(j.nodes[m.source], m.dest))
  {
    var n := nodes[relay];
    FailureForgetsRoute(n, m, from, acks);
    FailureIsReported(n, m, from, acks);
    MeshRouteKeeps(n, m, from, acks);
    var out := MeshRoute(n, m, from, acks);
    var after := nodes[relay := out.node];
    assert Forgotten(after, relay, m.dest);
    ReportClearsItsWay(after, from, relay, ReportOf(n, m), acksBack, m.dest);
    var j := Reported(nodes, relay, m, from, acks, acksBack);
    if j.home {
      NextSendAsks(j.nodes[m.source], m.dest);
    }
  }

  /** Every send to this node begins with a flood that asks for it. */
  ghost predicate AsksAnew(n: Node, address: uint8) {
    forall payload: seq<uint8>, flags: uint8, inbox: seq<Heard>, acks: seq<bool> |
      AllWellFormed(inbox) && |payload| <= MESH_MAX ::
      [Question(n, address)] <= MeshSend(n, payload, address, flags, inbox, acks).sends
  }

  lemma NextSendAsks(n: Node, address: uint8)
    requires address != BROADCAST && Lookup(n.routes, address) == None
    ensures AsksAnew(n, address)
  {
    forall payload: seq<uint8>, flags: uint8, inbox: seq<Heard>, acks: seq<bool> |
      AllWellFormed(inbox) && |payload| <= MESH_MAX
      ensures [Question(n, address)] <= MeshSend(n, payload, address, flags, inbox, acks).sends
    {
      SendBeginsWith(n, payload, address, flags, inbox, acks);
    }
  }
}
