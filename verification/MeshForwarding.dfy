/** A message on its way from router to router: the hop limit against arbitrary routing tables. */
module MeshForwarding {
  import opened Octets
  import opened RouteTable
  import opened MeshProtocol

  /**
   * Another node's message is passed on, whatever its type, exactly if a relay is left and there is a
   * route after peeking; past its limit nothing at all is sent. It counts one hop and is otherwise the same.
   */
  lemma PassedOnIff(n: Node, f: Frame, past: uint8, acks: seq<bool>)
    requires WellFormed(f.message.data) && f.message.dest !in {n.addr, BROADCAST}
    ensures var m, r := f.message, RouterReceive(n, f, past, acks);
            var hop := Lookup(Peek(n.routes, n.addr, m, f.from, past), m.dest);
            && r.delivered == None
            && (r.sends != [] && r.sends[0].message == m.(hops := Wrap8(m.hops + 1)) <==>
                  m.hops < n.maxHops && hop != None)
            && (m.hops < n.maxHops && hop != None ==>
                  r.sends[0].to == hop.value && r.sends[0].acked == (hop.value == BROADCAST || Answer(acks))
                  && r.sends[0].message.hops == m.hops + 1)
            && (m.hops >= n.maxHops ==> r.sends == [])
  {
  }

  /** The nodes that passed a message on, and where and how it ended. */
  datatype Trip = Trip(relays: seq<uint8>, at: uint8, message: Routed, delivered: bool)

  predicate Travels(m: Routed) {
    WellFormed(m.data) && m.data[0] == APPLICATION && m.dest != BROADCAST
  }

  /** What happens to m, arriving at x, when acks says in turn whether each link-level send succeeds. */
  function Travel(nodes: map<uint8, Node>, x: uint8, from: uint8, m: Routed, acks: seq<bool>): Trip
    requires Travels(m)
    decreases 0x100 - m.hops
  {
    if x !in nodes then Trip([], x, m, false) else
    var r := RouterReceive(nodes[x], Frame(x, from, m), 0, acks);
    if r.delivered != None then Trip([], x, r.delivered.value, true)
    else if r.sends != [] && r.sends[0].acked && r.sends[0].message.data == m.data then
      var on := Travel(nodes, r.sends[0].to, x, r.sends[0].message, if acks == [] then [] else acks[1..]);
      on.(relays := [x] + on.relays)
    else Trip([], x, m, false)
  }

  /**
   * Whatever the tables say, cycles included, the hops field counts the relays and never wraps, every
   * relay was still within its own limit, and nothing else in the message changes.
   */
  lemma {:induction false} HopsCountRelays(nodes: map<uint8, Node>, x: uint8, from: uint8, m: Routed, acks: seq<bool>)
    requires Travels(m) && forall y :: y in nodes ==> nodes[y].addr == y
    ensures var trip := Travel(nodes, x, from, m, acks);
            && m.hops + |trip.relays| <= 0xff
            && trip.message == m.(hops := m.hops + |trip.relays|)
            && (forall i :: 0 <= i < |trip.relays| ==>
                  trip.relays[i] in nodes && m.hops + i < nodes[trip.relays[i]].maxHops)
            && (trip.delivered ==> trip.at == m.dest)
    decreases 0x100 - m.hops
  {
    if x in nodes {
      var r := RouterReceive(nodes[x], Frame(x, from, m), 0, acks);
      if r.delivered == None && r.sends != [] && r.sends[0].acked && r.sends[0].message.data == m.data {
        assert r.sends[0].message == m.(hops := m.hops + 1);
        HopsCountRelays(nodes, r.sends[0].to, x, m.(hops := m.hops + 1), if acks == [] then [] else acks[1..]);
      }
    }
  }

  /** A message is relayed at most as often as the largest limit around allows. */
  lemma RelaysAreLimited(nodes: map<uint8, Node>, x: uint8, from: uint8, m: Routed, acks: seq<bool>, H: nat)
    requires Travels(m) && forall y :: y in nodes ==> nodes[y].addr == y && nodes[y].maxHops <= H
    ensures |Travel(nodes, x, from, m, acks).relays| <= if m.hops < H then H - m.hops else 0
  {
    HopsCountRelays(nodes, x, from, m, acks);
    var relays := Travel(nodes, x, from, m, acks).relays;
    if relays != [] {
      assert m.hops + (|relays| - 1) < nodes[relays[|relays| - 1]].maxHops;
    }
  }

  // ---------------------------------------------------------------- exactly when it arrives

  /** The nodes x, its next hop, that one's next hop, ... up to the destination d. */
  ghost predicate Chain(nodes: map<uint8, Node>, c: seq<uint8>, d: uint8) {
    && c != [] && c[0] in nodes && nodes[c[0]].addr == c[0] && c[0] != BROADCAST
    && if |c| == 1 then c[0] == d
       else c[0] != d && Lookup(nodes[c[0]].routes, d) == Some(c[1]) && Chain(nodes, c[1..], d)
  }

  /** Each node before the last allows the relay it has to make, the first of them with hops == k. */
  ghost predicate WithinLimits(nodes: map<uint8, Node>, c: seq<uint8>, k: nat) {
    |c| > 1 ==> c[0] in nodes && k < nodes[c[0]].maxHops && WithinLimits(nodes, c[1..], k + 1)
  }

  predicate AllTrue(acks: seq<bool>) {
    forall i :: 0 <= i < |acks| ==> acks[i]
  }

  lemma OneHop(nodes: map<uint8, Node>, x: uint8, h: uint8, from: uint8, m: Routed, acks: seq<bool>)
    requires Travels(m) && x in nodes && nodes[x].addr == x && x != m.dest
    requires Lookup(nodes[x].routes, m.dest) == Some(h) && acks != [] && acks[0]
    ensures m.hops < nodes[x].maxHops ==>
              var on := Travel(nodes, h, x, m.(hops := m.hops + 1), acks[1..]);
              Travel(nodes, x, from, m, acks) == on.(relays := [x] + on.relays)
    ensures m.hops >= nodes[x].maxHops ==> Travel(nodes, x, from, m, acks) == Trip([], x, m, false)
  {
    var r := RouterReceive(nodes[x], Frame(x, from, m), 0, acks);
    if m.hops < nodes[x].maxHops {
      assert r.sends == [LinkSend(h, m.(hops := m.hops + 1), true)] && r.delivered == None;
    } else {
      assert r.sends == [] && r.delivered == None;
    }
  }

  lemma AtItsDestination(nodes: map<uint8, Node>, x: uint8, from: uint8, m: Routed, acks: seq<bool>)
    requires Travels(m) && x in nodes && nodes[x].addr == x && x == m.dest
    ensures Travel(nodes, x, from, m, acks) == Trip([], x, m, true)
  {
  }

  lemma AllButLast(c: seq<uint8>)
    requires |c| > 1
    ensures [c[0]] + c[1..][..|c| - 2] == c[..|c| - 1]
  {
  }

  /** When every send succeeds, a message arrives exactly if each node on its way is within its limit. */
  lemma {:induction false} ArrivesIff(nodes: map<uint8, Node>, c: seq<uint8>, from: uint8, m: Routed, acks: seq<bool>)
    requires Travels(m) && Chain(nodes, c, m.dest) && AllTrue(acks) && |acks| >= |c|
    ensures var trip := Travel(nodes, c[0], from, m, acks);
            && (trip.delivered <==> WithinLimits(nodes, c, m.hops))
            && (trip.delivered ==> trip.relays == c[..|c| - 1])
    decreases |c|
  {
    if |c| == 1 {
      AtItsDestination(nodes, c[0], from, m, acks);
    } else {
      var rest := c[1..];
      OneHop(nodes, c[0], c[1], from, m, acks);
      if m.hops < nodes[c[0]].maxHops {
        ArrivesIff(nodes, rest, c[0], m.(hops := m.hops + 1), acks[1..]);
        AllButLast(c);
      }
    }
  }

  lemma {:induction false} UniformLimit(nodes: map<uint8, Node>, c: seq<uint8>, k: nat, H: nat)
    requires forall i :: 0 <= i < |c| ==> c[i] in nodes && nodes[c[i]].maxHops == H
    ensures WithinLimits(nodes, c, k) <==> |c| <= 1 || k + |c| - 2 < H
    decreases |c|
  {
    if |c| <= 1 {
    } else {
      UniformLimit(nodes, c[1..], k + 1, H);
    }
  }

  /** Tables that bring a message to d in rank[x] hops from x. */
  ghost predicate Ranked(nodes: map<uint8, Node>, rank: map<uint8, nat>, d: uint8) {
    && BROADCAST !in nodes
    && (forall x :: x in nodes ==> x in rank && nodes[x].addr == x && (rank[x] == 0 <==> x == d))
    && (forall x :: x in nodes && x != d ==> Descends(nodes, rank, x, d))
  }

  ghost predicate Descends(nodes: map<uint8, Node>, rank: map<uint8, nat>, x: uint8, d: uint8)
    requires x in nodes && x in rank
  {
    var next := Lookup(nodes[x].routes, d);
    next.Some? && next.value in nodes && next.value in rank && rank[next.value] + 1 == rank[x]
  }

  lemma {:induction false} ChainByRank(nodes: map<uint8, Node>, rank: map<uint8, nat>, x: uint8, d: uint8)
    returns (c: seq<uint8>)
    requires Ranked(nodes, rank, d) && x in nodes
    ensures Chain(nodes, c, d) && c[0] == x && |c| == rank[x] + 1
    ensures forall i :: 0 <= i < |c| ==> c[i] in nodes
    decreases rank[x]
  {
    if x == d {
      c := [d];
    } else {
      assert Descends(nodes, rank, x, d);
      var rest := ChainByRank(nodes, rank, Lookup(nodes[x].routes, d).value, d);
      c := [x] + rest;
      assert c[1..] == rest;
    }
  }

  /**
   * A message sent by a node of rank r, whose first hop is no relay, is delivered exactly when
   * r - 1 relays are allowed.
   */
  lemma DeliveredIffRankAllows(nodes: map<uint8, Node>, rank: map<uint8, nat>, x: uint8, m: Routed, acks: seq<bool>,
                               H: nat)
    requires Travels(m) && m.hops == 0 && Ranked(nodes, rank, m.dest) && x in nodes && x != m.dest
    requires forall y :: y in nodes ==> nodes[y].maxHops == H
    requires AllTrue(acks) && |acks| >= rank[x]
    ensures Lookup(nodes[x].routes, m.dest).Some?
    ensures Travel(nodes, Lookup(nodes[x].routes, m.dest).value, x, m, acks).delivered <==> rank[x] - 1 <= H
  {
    assert Descends(nodes, rank, x, m.dest);
    var c := ChainByRank(nodes, rank, Lookup(nodes[x].routes, m.dest).value, m.dest);
    ArrivesIff(nodes, c, x, m, acks);
    UniformLimit(nodes, c, 0, H);
  }
}
