/** What the routes that discovery learns mean, on any graph and on a tree. */
module MeshRoutes {
  import opened Octets
  import opened RouteTable
  import opened RouteTableTheory
  import opened MeshProtocol
  import opened MeshNodeTheory
  import opened Graphs
  import opened MeshNetwork

  // ---------------------------------------------------------------- paths

  predicate Leads(g: Graph, p: seq<uint8>, x: uint8, d: uint8, h: uint8) {
    Simple(g, p) && |p| >= 2 && p[0] == x && p[1] == h && Last(p) == d
  }

  /** h is the first hop of a genuine simple path from x to d. */
  ghost predicate Correct(g: Graph, x: uint8, d: uint8, h: uint8) {
    exists p :: Leads(g, p, x, d, h)
  }

  /** A graph without cycles: two nodes are joined by at most one simple path. */
  ghost predicate UniquePaths(g: Graph) {
    forall p, q :: Simple(g, p) && Simple(g, q) && p[0] == q[0] && Last(p) == Last(q) ==> p == q
  }

  function Reverse(p: seq<uint8>): seq<uint8> {
    seq(|p|, i requires 0 <= i < |p| => p[|p| - 1 - i])
  }

  lemma ReversePath(g: Graph, p: seq<uint8>)
    requires Simple(g, p)
    ensures Simple(g, Reverse(p))
  {
  }

  lemma Neighbours(g: Graph, a: uint8, b: uint8)
    requires Adj(g, a, b)
    ensures Correct(g, a, b, b)
  {
    assert Leads(g, [a, b], a, b, b);
  }

  /** From x one reaches any node of a path through the path's last node, x's neighbour. */
  lemma BackAlong(g: Graph, p: seq<uint8>, i: nat, x: uint8)
    requires Simple(g, p) && i < |p| && Adj(g, Last(p), x) && x !in p
    ensures Correct(g, x, p[i], Last(p))
  {
    PartOfPath(g, p, i, |p|);
    var q := p[i..|p|];
    ExtendPath(g, q, x);
    ReversePath(g, q + [x]);
    assert Leads(g, Reverse(q + [x]), x, p[i], Last(p));
  }

  lemma OnwardFrom(g: Graph, p: seq<uint8>, i: nat, k: nat)
    requires Simple(g, p) && i < k < |p|
    ensures Correct(g, p[i], p[k], p[i + 1])
  {
    PartOfPath(g, p, i, k + 1);
    assert Leads(g, p[i..k + 1], p[i], p[k], p[i + 1]);
  }

  /** On a tree a message is not sent back to the neighbour whose next hop this node is. */
  lemma NotBack(g: Graph, x: uint8, from: uint8, dest: uint8, h: uint8)
    requires UniquePaths(g) && Correct(g, from, dest, x) && Correct(g, x, dest, h)
    ensures h != from
  {
    var here :| Leads(g, here, from, dest, x);
    var ahead :| Leads(g, ahead, x, dest, h);
    PartOfPath(g, ahead, 1, |ahead|);
    var rest := ahead[1..|ahead|];
    assert rest[0] == h && Last(rest) == dest && x !in rest;
    assert here[1] == x;
  }

  /** On a tree a neighbour is no way to another neighbour. */
  lemma NeighbourIsNoWay(g: Graph, n: uint8, b: uint8, c: uint8)
    requires UniquePaths(g) && Adj(g, n, b) && Adj(g, n, c) && b != c
    ensures !Correct(g, n, c, b)
  {
    assert Simple(g, [n, c]) && Last([n, c]) == c;
    forall p | Simple(g, p) && p[0] == n && Last(p) == c
      ensures p == [n, c]
    {
    }
  }

  lemma OtherNeighboursAreOff(g: Graph, back: seq<uint8>, x: uint8, source: uint8, from: uint8, h: uint8)
    requires UniquePaths(g) && Leads(g, back, x, source, from) && Adj(g, x, h) && h != from
    ensures h !in back
  {
    forall k | 0 <= k < |back|
      ensures back[k] != h
    {
      PartOfPath(g, back, 0, k + 1);
      var start := back[0..k + 1];
      assert start[0] == x && Last(start) == back[k] && (k > 0 ==> start[1] == from);
      assert Simple(g, [x, h]) && Last([x, h]) == h && [x, h][1] != from;
    }
  }

  /** On a tree, a message that came from behind and goes on ahead goes away from its source. */
  lemma OnwardIsAway(g: Graph, x: uint8, source: uint8, from: uint8, dest: uint8, h: uint8)
    requires UniquePaths(g)
    requires Correct(g, x, source, from) && Correct(g, from, dest, x) && Correct(g, x, dest, h)
    ensures Correct(g, h, source, x)
  {
    var back :| Leads(g, back, x, source, from);
    var ahead :| Leads(g, ahead, x, dest, h);
    assert Adj(g, ahead[0], ahead[1]);
    NotBack(g, x, from, dest, h);
    OtherNeighboursAreOff(g, back, x, source, from, h);
    assert Simple(g, [h] + back);
    assert Leads(g, [h] + back, h, source, x);
  }

  // ---------------------------------------------------------------- tables

  /** Routes to nodes are right. There may be routes to addresses that no node has. */
  ghost predicate AllCorrect(g: Graph, x: uint8, t: Slots) {
    forall i :: 0 <= i < SIZE && t[i].state != Invalid && t[i].dest in g.nodes ==>
      Correct(g, x, t[i].dest, t[i].nextHop)
  }

  lemma LookupCorrect(g: Graph, x: uint8, t: Slots, d: uint8)
    requires AllCorrect(g, x, t) && Lookup(t, d) != None && d in g.nodes
    ensures Correct(g, x, d, Lookup(t, d).value)
  {
    FirstHits(t, LiveSlotOf(d));
  }

  lemma AddCorrect(g: Graph, x: uint8, t: Slots, d: uint8, h: uint8)
    requires AllCorrect(g, x, t) && (d in g.nodes ==> Correct(g, x, d, h))
    ensures AllCorrect(g, x, Add(t, d, h, Valid))
  {
  }

  lemma DeleteCorrect(g: Graph, x: uint8, t: Slots, d: uint8)
    requires AllCorrect(g, x, t)
    ensures AllCorrect(g, x, Delete(t, d))
  {
  }

  lemma {:induction false} AddAllCorrect(g: Graph, x: uint8, t: Slots, ds: seq<uint8>, h: uint8)
    requires AllCorrect(g, x, t) && forall i :: 0 <= i < |ds| && ds[i] in g.nodes ==> Correct(g, x, ds[i], h)
    ensures AllCorrect(g, x, AddAll(t, ds, h))
    decreases |ds|
  {
    if ds == [] {
    } else {
      AddCorrect(g, x, t, ds[0], h);
      AddAllCorrect(g, x, Add(t, ds[0], h, Valid), ds[1..], h);
    }
  }

  // ---------------------------------------------------------------- requests, on any graph

  /** A request teaches a node the first hops of genuine paths, whatever the graph. */
  lemma RequestTeachesGenuinePaths(g: Graph, H: nat, n: Node, f: Frame, acks: seq<bool>)
    requires FrameOk(g, H, f) && IsRequest(f.message) && Adj(g, f.from, n.addr) && AllCorrect(g, n.addr, n.routes)
    ensures AllCorrect(g, n.addr, HandleRequest(n, f.message, f.from, acks).node.routes)
  {
    var m := f.message;
    if Fresh(n, m) {
      var path := [m.source] + m.data[3..];
      assert n.addr !in path;
      forall i | 0 <= i < |path|
        ensures Correct(g, n.addr, path[i], f.from)
      {
        BackAlong(g, path, i, n.addr);
      }
      AddAllCorrect(g, n.addr, n.routes, path, f.from);
      DeleteCorrect(g, n.addr, AddAll(n.routes, path, f.from), m.source);
      DeleteCorrect(g, n.addr, AddAll(n.routes, path, f.from), BROADCAST);
    }
  }

  lemma BeginKeepsCorrect(g: Graph, n: Node, payload: seq<uint8>, address: uint8, flags: uint8, acks: seq<bool>)
    requires AllCorrect(g, n.addr, n.routes)
    ensures AllCorrect(g, n.addr, Begin(n, payload, address, flags, acks).site.node.routes)
  {
    DeleteCorrect(g, n.addr, n.routes, address);
    DeleteCorrect(g, n.addr, n.routes, BROADCAST);
  }

  ghost predicate NetCorrect(g: Graph, s: Net) {
    forall x :: x in s.sites ==> AllCorrect(g, x, s.sites[x].node.routes)
  }

  /** A step of discovery: everything but handling some other message than a request. */
  predicate DiscoveryStep(s: Net, step: Step) {
    step.Receive? ==> step.k < |s.pending| && IsRequest(s.pending[step.k].frame.message)
  }

  lemma DiscoveryStepKeepsCorrect(g: Graph, H: nat, s: Net, step: Step)
    requires Inv(g, H, s) && NetCorrect(g, s) && Enabled(s, step) && DiscoveryStep(s, step)
    ensures NetCorrect(g, Next(g, s, step))
  {
    match step
    case Send(x, payload, address, flags, acks) =>
      BeginKeepsCorrect(g, s.sites[x].node, payload, address, flags, acks);
    case Receive(k, past, acks, answers) =>
      var c := s.pending[k];
      var n := s.sites[c.at].node;
      RequestTeachesGenuinePaths(g, H, n, c.frame, acks);
      assert n.(routes := n.routes) == n;
    case Lose(k) =>
    case GiveUp(x) =>
  }

  ghost predicate DiscoveryRun(g: Graph, s: Net, steps: seq<Step>)
    requires Legal(g, s, steps)
    decreases |steps|
  {
    steps == [] || (DiscoveryStep(s, steps[0]) && DiscoveryRun(g, Next(g, s, steps[0]), steps[1..]))
  }

  /** In every run of discovery steps, on every graph, each learnt next hop begins a genuine simple path. */
  lemma {:induction false} LearntRoutesAreGenuine(g: Graph, H: nat, s: Net, steps: seq<Step>)
    requires Inv(g, H, s) && NetCorrect(g, s) && Legal(g, s, steps) && DiscoveryRun(g, s, steps)
    ensures NetCorrect(g, End(g, s, steps))
    decreases |steps|
  {
    if steps == [] {
    } else {
      StepKeepsInv(g, H, s, steps[0]);
      DiscoveryStepKeepsCorrect(g, H, s, steps[0]);
      LearntRoutesAreGenuine(g, H, Next(g, s, steps[0]), steps[1..]);
    }
  }

  // ---------------------------------------------------------------- everything, on a tree

  /** A routed message travels on the path from its source to its destination. */
  ghost predicate OnPath(g: Graph, f: Frame) {
    f.message.dest != BROADCAST ==>
      && f.to != BROADCAST
      && Correct(g, f.to, f.message.source, f.from)
      && Correct(g, f.from, f.message.dest, f.to)
  }

  ghost predicate SendsOnPath(g: Graph, x: uint8, sends: seq<LinkSend>) {
    forall s :: s in sends ==> OnPath(g, FrameOf(x, s))
  }

  /** Where a node stands towards a message it passes on or has written itself. */
  ghost predicate Between(g: Graph, x: uint8, m: Routed, from: uint8) {
    m.dest != BROADCAST ==>
      && m.dest in g.nodes
      && (m.source != x ==> Correct(g, x, m.source, from) && Correct(g, from, m.dest, x))
  }

  lemma FirstHopIsNeighbour(g: Graph, x: uint8, d: uint8, h: uint8)
    requires Correct(g, x, d, h)
    ensures Adj(g, x, h) && Adj(g, h, x) && x != d && d in g.nodes
  {
  }

  lemma OwnRouteOnPath(g: Graph, n: Node, m: Routed, from: uint8, acks: seq<bool>)
    requires UniquePaths(g) && BROADCAST !in g.nodes && AllCorrect(g, n.addr, n.routes) && Between(g, n.addr, m, from)
    ensures AllCorrect(g, n.addr, OwnRoute(n, m, acks).node.routes)
    ensures SendsOnPath(g, n.addr, OwnRoute(n, m, acks).sends)
  {
    DeleteCorrect(g, n.addr, n.routes, m.dest);
    if m.dest != BROADCAST && Lookup(n.routes, m.dest) != None {
      var h := Lookup(n.routes, m.dest).value;
      LookupCorrect(g, n.addr, n.routes, m.dest);
      FirstHopIsNeighbour(g, n.addr, m.dest, h);
      if m.source == n.addr {
        Neighbours(g, h, n.addr);
      } else {
        OnwardIsAway(g, n.addr, m.source, from, m.dest, h);
      }
    }
  }

  lemma SendOwnOnPath(g: Graph, n: Node, data: seq<uint8>, dest: uint8, flags: uint8, acks: seq<bool>)
    requires UniquePaths(g) && BROADCAST !in g.nodes && AllCorrect(g, n.addr, n.routes)
    requires dest == BROADCAST || dest in g.nodes
    ensures AllCorrect(g, n.addr, SendOwn(n, data, dest, flags, acks).node.routes)
    ensures SendsOnPath(g, n.addr, SendOwn(n, data, dest, flags, acks).sends)
  {
    OwnRouteOnPath(g, n.(e2e := Wrap8(n.e2e + 1)), Routed(dest, n.addr, 0, n.e2e, flags, data), n.addr, acks);
  }

  lemma MeshRouteOnPath(g: Graph, n: Node, m: Routed, from: uint8, acks: seq<bool>)
    requires UniquePaths(g) && BROADCAST !in g.nodes && AllCorrect(g, n.addr, n.routes) && Between(g, n.addr, m, from)
    ensures AllCorrect(g, n.addr, MeshRoute(n, m, from, acks).node.routes)
    ensures SendsOnPath(g, n.addr, MeshRoute(n, m, from, acks).sends)
  {
    OwnRouteOnPath(g, n, m, from, acks);
    var own := OwnRoute(n, m, acks);
    if own.code != NoError && m.source != n.addr {
      AddCorrect(g, n.addr, own.node.routes, m.source, from);
      var back := own.node.(routes := Add(own.node.routes, m.source, from, Valid));
      SendOwnOnPath(g, back, [FAILURE, m.dest], m.source, 0, Later(acks, own.sends));
    }
  }

  /** peekAtMessage reads one octet too many, and adds a route to it through `from`. */
  ghost predicate ReadsPast(x: uint8, m: Routed)
    requires WellFormed(m.data)
  {
    m.data[0] == RESPONSE && IndexOf(m.data[3..], x) + 1 < |m.data[3..]|
  }

  /** A response's originator, list and sought node. */
  function ListedPath(m: Routed): seq<uint8>
    requires WellFormed(m.data) && m.data[0] == RESPONSE
  {
    [m.dest] + m.data[3..] + [m.data[2]]
  }

  /** On a tree a response comes back along its own list: the sender is the node after this one. */
  lemma SenderIsListed(g: Graph, H: nat, f: Frame)
    requires UniquePaths(g) && FrameOk(g, H, f) && OnPath(g, f) && ReadsPast(f.to, f.message)
    ensures var p := IndexOf(f.message.data[3..], f.to);
            ListedPath(f.message)[p + 1] == f.to && ListedPath(f.message)[p + 2] == f.from
  {
    var m := f.message;
    var path := ListedPath(m);
    var p := IndexOf(m.data[3..], f.to);
    IndexOfFinds(m.data[3..], f.to);
    var back :| Leads(g, back, f.to, m.source, f.from);
    PartOfPath(g, path, p + 1, |path|);
    var rest := path[p + 1..|path|];
    assert rest[0] == f.to && rest[1] == path[p + 2] && Last(rest) == m.source;
    assert rest == back;
  }

  /** So the members that peekAtMessage adds are behind the sender. */
  lemma ScrapedAreBehind(g: Graph, H: nat, f: Frame, i: nat)
    requires UniquePaths(g) && FrameOk(g, H, f) && OnPath(g, f) && ReadsPast(f.to, f.message)
    requires IndexOf(f.message.data[3..], f.to) + 2 <= i < |f.message.data[3..]|
    ensures Correct(g, f.to, f.message.data[3..][i], f.from)
  {
    var path := ListedPath(f.message);
    SenderIsListed(g, H, f);
    assert path[1 + i] == f.message.data[3..][i];
    OnwardFrom(g, path, IndexOf(f.message.data[3..], f.to) + 1, 1 + i);
  }

  /** The octet read past the list does no harm if no node has it for an address, or one behind `from`. */
  ghost predicate PastIsHarmless(g: Graph, x: uint8, m: Routed, from: uint8, past: uint8)
    requires WellFormed(m.data)
  {
    ReadsPast(x, m) && past in g.nodes ==> Correct(g, x, past, from)
  }

  /** Peeking leaves only correct routes exactly then. */
  lemma PeekKeepsCorrectIff(g: Graph, H: nat, t: Slots, f: Frame, past: uint8)
    requires UniquePaths(g) && FrameOk(g, H, f) && OnPath(g, f) && Sound(t) && AllCorrect(g, f.to, t)
    ensures AllCorrect(g, f.to, Peek(t, f.to, f.message, f.from, past)) <==>
            PastIsHarmless(g, f.to, f.message, f.from, past)
  {
    var m := f.message;
    if m.data[0] == FAILURE {
      DeleteCorrect(g, f.to, t, m.data[1]);
    } else if m.data[0] == RESPONSE {
      var u := Add(t, m.data[2], f.from, Valid);
      AddCorrect(g, f.to, t, m.data[2], f.from);
      AddIsUpdate(t, m.data[2], f.from, Valid);
      if ReadsPast(f.to, m) {
        var list := m.data[3..];
        var behind := list[IndexOf(list, f.to) + 2..];
        assert Scraped(list, f.to, past) == behind + [past];
        forall i | 0 <= i < |behind|
          ensures Correct(g, f.to, behind[i], f.from)
        {
          assert behind[i] == list[IndexOf(list, f.to) + 2 + i];
          ScrapedAreBehind(g, H, f, IndexOf(list, f.to) + 2 + i);
        }
        AddAllCorrect(g, f.to, u, behind, f.from);
        AddAllSound(u, behind, f.from);
        var v := AddAll(u, behind, f.from);
        AddAllOneMore(u, behind, past, f.from);
        AddIsUpdate(v, past, f.from, Valid);
        if past in g.nodes ==> Correct(g, f.to, past, f.from) {
          AddCorrect(g, f.to, v, past, f.from);
        } else if AllCorrect(g, f.to, Add(v, past, f.from, Valid)) {
          LookupCorrect(g, f.to, Add(v, past, f.from, Valid), past);
        }
      }
    }
  }

  lemma PeekedCorrect(g: Graph, H: nat, x: uint8, t: Slots, f: Frame, past: uint8)
    requires UniquePaths(g) && FrameOk(g, H, f) && OnPath(g, f) && Sound(t) && AllCorrect(g, x, t)
    requires f.to == x || f.message.dest == BROADCAST
    requires PastIsHarmless(g, x, f.message, f.from, past)
    ensures AllCorrect(g, x, Peek(t, x, f.message, f.from, past))
  {
    if f.message.dest != BROADCAST {
      PeekKeepsCorrectIff(g, H, t, f, past);
    } else if f.message.data[0] == FAILURE {
      DeleteCorrect(g, x, t, f.message.data[1]);
    }
  }

  lemma RouterReceiveOnPath(g: Graph, H: nat, n: Node, f: Frame, past: uint8, acks: seq<bool>)
    requires UniquePaths(g) && BROADCAST !in g.nodes && Sound(n.routes) && AllCorrect(g, n.addr, n.routes)
    requires FrameOk(g, H, f) && OnPath(g, f) && (f.to == n.addr || f.message.dest == BROADCAST)
    requires PastIsHarmless(g, n.addr, f.message, f.from, past)
    ensures AllCorrect(g, n.addr, RouterReceive(n, f, past, acks).node.routes)
    ensures SendsOnPath(g, n.addr, RouterReceive(n, f, past, acks).sends)
  {
    PeekedCorrect(g, H, n.addr, n.routes, f, past);
    var m := f.message;
    var r := RouterReceive(n, f, past, acks);
    var peeked := n.(routes := Peek(n.routes, n.addr, m, f.from, past));
    if m.dest == n.addr || m.dest == BROADCAST || m.hops >= n.maxHops {
      assert r.node == peeked && r.sends == [];
    } else {
      var relayed := m.(hops := Wrap8(m.hops + 1));
      assert Between(g, n.addr, relayed, f.from);
      MeshRouteOnPath(g, peeked, relayed, f.from, acks);
      assert r.node == MeshRoute(peeked, relayed, f.from, acks).node;
    }
  }

  lemma HandleRequestOnPath(g: Graph, H: nat, n: Node, f: Frame, acks: seq<bool>)
    requires UniquePaths(g) && BROADCAST !in g.nodes && AllCorrect(g, n.addr, n.routes)
    requires FrameOk(g, H, f) && IsRequest(f.message) && Adj(g, f.from, n.addr)
    ensures SendsOnPath(g, n.addr, HandleRequest(n, f.message, f.from, acks).sends)
  {
    var m := f.message;
    if Fresh(n, m) {
      var path := [m.source] + m.data[3..];
      assert n.addr !in path;
      forall i | 0 <= i < |path|
        ensures Correct(g, n.addr, path[i], f.from)
      {
        BackAlong(g, path, i, n.addr);
      }
      AddAllCorrect(g, n.addr, n.routes, path, f.from);
      var knows := n.(routes := AddAll(n.routes, path, f.from));
      SendOwnOnPath(g, knows, m.data[0 := RESPONSE], m.source, 0, acks);
    }
  }

  /** The nodes a response names: the one that was sought and the ones on the way to it. */
  predicate Names(m: Routed, d: uint8)
    requires WellFormed(m.data) && m.data[0] == RESPONSE
  {
    d == m.data[2] || d in m.data[3..]
  }

  /** Back home, everything a response names is behind its sender. */
  lemma NamedIsBehind(g: Graph, H: nat, f: Frame, d: uint8)
    requires UniquePaths(g) && FrameOk(g, H, f) && OnPath(g, f)
    requires f.message.data[0] == RESPONSE && f.message.dest == f.to && Names(f.message, d)
    ensures Correct(g, f.to, d, f.from)
  {
    var m := f.message;
    var path := ListedPath(m);
    var back :| Leads(g, back, f.to, m.source, f.from);
    assert path[0] == f.to && Last(path) == m.source;
    assert back == path;
    if d == m.data[2] {
      OnwardFrom(g, path, 0, |path| - 1);
    } else {
      var k :| 0 <= k < |m.data[3..]| && m.data[3..][k] == d;
      assert path[1 + k] == d;
      OnwardFrom(g, path, 0, 1 + k);
    }
  }

  /** What no node checks, and what no one can ask of a tree: a message to an address that no node has. */
  ghost predicate Lucky(g: Graph, s: Net, step: Step)
    requires Enabled(s, step)
  {
    match step
    case Receive(k, past, acks, answers) =>
      var c := s.pending[k];
      var m := c.frame.message;
      && PastIsHarmless(g, c.at, m, c.frame.from, past)
      && (s.sites[c.at].waiting != None && m.data[0] == RESPONSE && m.dest == c.at ==>
            Names(m, s.sites[c.at].waiting.value.address))
    case Send(x, _, address, _, _) => Known(s.sites[x].node, address) ==> address == BROADCAST || address in g.nodes
    case _ => true
  }

  lemma TakeOnPath(g: Graph, H: nat, site: Site, f: Frame, past: uint8, acks: seq<bool>, answers: seq<bool>)
    requires UniquePaths(g) && BROADCAST !in g.nodes
    requires Sound(site.node.routes) && AllCorrect(g, site.node.addr, site.node.routes)
    requires FrameOk(g, H, f) && OnPath(g, f) && Hears(g, f, site.node.addr)
    requires PastIsHarmless(g, site.node.addr, f.message, f.from, past)
    requires site.waiting != None && f.message.data[0] == RESPONSE && f.message.dest == site.node.addr ==>
               Names(f.message, site.waiting.value.address)
    ensures AllCorrect(g, site.node.addr, Take(site, f, past, acks, answers).site.node.routes)
    ensures SendsOnPath(g, site.node.addr, Take(site, f, past, acks, answers).sends)
  {
    var n := site.node;
    var r := RouterReceive(n, f, past, acks);
    RouterReceiveOnPath(g, H, n, f, past, acks);
    match site.waiting
    case None =>
      if r.delivered.Some? && IsRequest(f.message) {
        RequestTeachesGenuinePaths(g, H, r.node, f, acks);
        HandleRequestOnPath(g, H, r.node, f, acks);
      }
    case Some(w) =>
      var a := Hear(Asking(n, w.room, [], false), w.address, Heard(f, past, acks));
      assert a.sends == r.sends;
      if a.found {
        NamedIsBehind(g, H, f, w.address);
        FirstHopIsNeighbour(g, n.addr, w.address, f.from);
        AddCorrect(g, n.addr, r.node.routes, w.address, f.from);
        SendOwnOnPath(g, a.node, [APPLICATION] + w.payload, w.address, w.flags, answers);
      }
  }

  /** Taking a response for the awaited one is right exactly when the awaited node is behind the sender. */
  lemma AwaitedRouteCorrectIff(g: Graph, H: nat, n: Node, room: nat, address: uint8, h: Heard)
    requires UniquePaths(g) && BROADCAST !in g.nodes && Sound(n.routes) && AllCorrect(g, n.addr, n.routes)
    requires FrameOk(g, H, h.frame) && OnPath(g, h.frame) && h.frame.to == n.addr
    requires PastIsHarmless(g, n.addr, h.frame.message, h.frame.from, h.past)
    ensures var a := Hear(Asking(n, room, [], false), address, h);
            a.found ==> (AllCorrect(g, n.addr, a.node.routes) <==>
                         (address in g.nodes ==> Correct(g, n.addr, address, h.frame.from)))
  {
    var a := Hear(Asking(n, room, [], false), address, h);
    var r := RouterReceive(n, h.frame, h.past, h.acks);
    RouterReceiveOnPath(g, H, n, h.frame, h.past, h.acks);
    RouterReceiveKeeps(n, h.frame, h.past, h.acks);
    AddIsUpdate(r.node.routes, address, h.frame.from, Valid);
    if address in g.nodes ==> Correct(g, n.addr, address, h.frame.from) {
      AddCorrect(g, n.addr, r.node.routes, address, h.frame.from);
    } else if a.found && AllCorrect(g, n.addr, a.node.routes) {
      LookupCorrect(g, n.addr, a.node.routes, address);
    }
  }

  /** It would be, if doArp looked whether the response names the awaited node. */
  lemma NamedAwaitedRouteIsCorrect(g: Graph, H: nat, n: Node, room: nat, address: uint8, h: Heard)
    requires UniquePaths(g) && BROADCAST !in g.nodes && Sound(n.routes) && AllCorrect(g, n.addr, n.routes)
    requires FrameOk(g, H, h.frame) && OnPath(g, h.frame) && h.frame.to == n.addr
    requires PastIsHarmless(g, n.addr, h.frame.message, h.frame.from, h.past)
    requires Hear(Asking(n, room, [], false), address, h).found && Names(h.frame.message, address)
    ensures Correct(g, n.addr, address, h.frame.from)
    ensures AllCorrect(g, n.addr, Hear(Asking(n, room, [], false), address, h).node.routes)
  {
    NamedIsBehind(g, H, h.frame, address);
    AwaitedRouteCorrectIff(g, H, n, room, address, h);
  }

  ghost predicate TreeInv(g: Graph, H: nat, s: Net) {
    && Inv(g, H, s) && NetCorrect(g, s)
    && (forall c :: c in s.pending ==> OnPath(g, c.frame))
  }

  lemma LaunchOnPath(g: Graph, x: uint8, sends: seq<LinkSend>)
    requires SendsOnPath(g, x, sends)
    ensures forall c :: c in Launch(g, x, sends) ==> OnPath(g, c.frame)
  {
    forall c | c in Launch(g, x, sends)
      ensures OnPath(g, c.frame)
    {
      var s := LaunchedFrom(g, x, sends, c);
    }
  }

  lemma StepKeepsTreeInv(g: Graph, H: nat, s: Net, step: Step)
    requires UniquePaths(g) && TreeInv(g, H, s) && Enabled(s, step) && Lucky(g, s, step)
    ensures TreeInv(g, H, Next(g, s, step))
  {
    StepKeepsInv(g, H, s, step);
    match step
    case Send(x, payload, address, flags, acks) =>
      var n := s.sites[x].node;
      BeginKeepsCorrect(g, n, payload, address, flags, acks);
      if Known(n, address) {
        SendOwnOnPath(g, n, [APPLICATION] + payload, address, flags, acks);
      }
      SendOwnOnPath(g, n, [REQUEST, 1, address], BROADCAST, 0, []);
      LaunchOnPath(g, x, Begin(n, payload, address, flags, acks).sends);
    case Receive(k, past, acks, answers) =>
      var c := s.pending[k];
      TakeOnPath(g, H, s.sites[c.at], c.frame, past, acks, answers);
      LaunchOnPath(g, c.at, Take(s.sites[c.at], c.frame, past, acks, answers).sends);
    case Lose(k) =>
    case GiveUp(x) =>
  }

  ghost predicate LuckyRun(g: Graph, s: Net, steps: seq<Step>)
    requires Legal(g, s, steps)
    decreases |steps|
  {
    steps == [] || (Lucky(g, s, steps[0]) && LuckyRun(g, Next(g, s, steps[0]), steps[1..]))
  }

  /**
   * On a tree, through discoveries, relaying, failures and reports alike, every route to a node, at every
   * node, points along the one path to it, and every routed message stays on its path.
   */
  lemma {:induction false} TreeRoutesPointHome(g: Graph, H: nat, s: Net, steps: seq<Step>)
    requires UniquePaths(g) && TreeInv(g, H, s) && Legal(g, s, steps) && LuckyRun(g, s, steps)
    ensures TreeInv(g, H, End(g, s, steps))
    decreases |steps|
  {
    if steps == [] {
    } else {
      StepKeepsTreeInv(g, H, s, steps[0]);
      TreeRoutesPointHome(g, H, Next(g, s, steps[0]), steps[1..]);
    }
  }

  /** From nodes that know nothing yet. */
  lemma FreshTreeRoutesPointHome(g: Graph, H: nat, s: Net, steps: seq<Step>)
    requires UniquePaths(g) && Initial(g, H, s) && forall x :: x in s.sites ==> AllInvalid(s.sites[x].node.routes)
    requires Legal(g, s, steps) && LuckyRun(g, s, steps)
    ensures var e := End(g, s, steps);
            forall x, d :: x in e.sites && d in g.nodes && Lookup(e.sites[x].node.routes, d) != None ==>
              Correct(g, x, d, Lookup(e.sites[x].node.routes, d).value)
  {
    TreeRoutesPointHome(g, H, s, steps);
    var e := End(g, s, steps);
    forall x, d | x in e.sites && d in g.nodes && Lookup(e.sites[x].node.routes, d) != None
      ensures Correct(g, x, d, Lookup(e.sites[x].node.routes, d).value)
    {
      LookupCorrect(g, x, e.sites[x].node.routes, d);
    }
  }

  // ---------------------------------------------------------------- following next hops

  /** c[0], c[1], ... where each next node is the route the one before has to d. */
  ghost predicate FollowsRoutes(s: Net, d: uint8, c: seq<uint8>) {
    && c != []
    && (forall i :: 0 <= i < |c| ==> c[i] in s.sites)
    && (forall i :: 0 <= i < |c| - 1 ==> Lookup(s.sites[c[i]].node.routes, d) == Some(c[i + 1]))
  }

  lemma NextHopIsOnPath(g: Graph, s: Net, x: uint8, d: uint8, h: uint8, path: seq<uint8>)
    requires UniquePaths(g) && NetCorrect(g, s) && x in s.sites && Lookup(s.sites[x].node.routes, d) == Some(h)
    requires Simple(g, path) && path[0] == x && Last(path) == d
    ensures |path| > 1 && path[1] == h
  {
    LookupCorrect(g, x, s.sites[x].node.routes, d);
    var p :| Leads(g, p, x, d, h);
    assert p == path;
  }

  lemma RestFollowsRoutes(s: Net, d: uint8, c: seq<uint8>)
    requires FollowsRoutes(s, d, c) && |c| > 1
    ensures FollowsRoutes(s, d, c[1..])
    ensures c[0] in s.sites && Lookup(s.sites[c[0]].node.routes, d) == Some(c[1])
  {
  }

  lemma Prefixed(c: seq<uint8>, path: seq<uint8>)
    requires 1 < |c| <= |path| && c[0] == path[0] && c[1..] == path[1..][..|c| - 1]
    ensures c == path[..|c|]
  {
    forall i | 0 <= i < |c|
      ensures c[i] == path[i]
    {
      assert i > 0 ==> c[1..][i - 1] == path[1..][..|c| - 1][i - 1];
    }
  }

  /** On a tree, next hops run along the one path to the destination: each is one hop closer. */
  lemma {:induction false} NextHopsCannotLoop(g: Graph, s: Net, d: uint8, c: seq<uint8>, path: seq<uint8>)
    requires UniquePaths(g) && NetCorrect(g, s) && FollowsRoutes(s, d, c)
    requires Simple(g, path) && path[0] == c[0] && Last(path) == d
    ensures |c| <= |path| && c == path[..|c|] && NoDup(c)
    decreases |c|
  {
    if |c| <= 1 {
    } else {
      RestFollowsRoutes(s, d, c);
      NextHopIsOnPath(g, s, c[0], d, c[1], path);
      PartOfPath(g, path, 1, |path|);
      var rest := path[1..|path|];
      NextHopsCannotLoop(g, s, d, c[1..], rest);
      Prefixed(c, path);
    }
  }

  // ---------------------------------------------------------------- the line is a tree

  function Row(n: nat): (links: set<(uint8, uint8)>)
    requires n < BROADCAST
  {
    if n < 2 then {} else Row(n - 1) + {(n - 1, n)}
  }

  lemma {:induction false} RowLinks(n: nat, a: uint8, b: uint8)
    requires n < BROADCAST && (a, b) in Row(n)
    ensures b == a + 1
  {
    if (a, b) in Row(n - 1) {
      RowLinks(n - 1, a, b);
    }
  }

  /** The nodes 1 .. n in a row; RH_TEST_NETWORK 1 is Line(4). */
  function Line(n: nat): Graph
    requires n < BROADCAST
  {
    Graph(seq(n, i requires 0 <= i < n => i + 1), Row(n))
  }

  lemma LineNeighbours(n: nat, a: uint8, b: uint8)
    requires n < BROADCAST && Adj(Line(n), a, b)
    ensures b == a + 1 || a == b + 1
  {
    if (a, b) in Row(n) {
      RowLinks(n, a, b);
    } else {
      RowLinks(n, b, a);
    }
  }

  /** A simple path on a line never turns round. */
  lemma {:induction false} LinePathsAreStraight(n: nat, p: seq<uint8>, i: nat)
    requires n < BROADCAST && Simple(Line(n), p) && 1 <= i < |p|
    ensures p[1] == p[0] + 1 || p[0] == p[1] + 1
    ensures if p[1] == p[0] + 1 then p[i] == p[0] + i else p[0] == p[i] + i
  {
    LineNeighbours(n, p[i - 1], p[i]);
    if i <= 1 {
    } else {
      LinePathsAreStraight(n, p, i - 1);
      if i > 2 {
        LinePathsAreStraight(n, p, i - 2);
      }
      assert p[i] != p[i - 2];
    }
  }

  lemma LinePathIsGiven(n: nat, p: seq<uint8>, i: nat)
    requires n < BROADCAST && Simple(Line(n), p) && i < |p|
    ensures if Last(p) >= p[0] then Last(p) == p[0] + |p| - 1 && p[i] == p[0] + i
            else p[0] == Last(p) + |p| - 1 && p[0] == p[i] + i
  {
    if |p| > 1 {
      LinePathsAreStraight(n, p, |p| - 1);
      if i > 0 {
        LinePathsAreStraight(n, p, i);
      }
    }
  }

  lemma LineIsTree(n: nat)
    requires n < BROADCAST
    ensures UniquePaths(Line(n))
  {
    forall p, q | Simple(Line(n), p) && Simple(Line(n), q) && p[0] == q[0] && Last(p) == Last(q)
      ensures p == q
    {
      LinePathIsGiven(n, p, 0);
      LinePathIsGiven(n, q, 0);
      forall i | 0 <= i < |p|
        ensures p[i] == q[i]
      {
        LinePathIsGiven(n, p, i);
        LinePathIsGiven(n, q, i);
      }
    }
  }

  /** Node 4's answer to node 1 on RH_TEST_NETWORK 1, as node 3 hands it to node 2. */
  const LINE_ANSWER: Frame := Frame(2, 3, Routed(1, 4, 1, 0, 0, [RESPONSE, 1, 4, 2, 3]))

  lemma LineOfFour()
    ensures Simple(Line(4), [1, 2, 3, 4])
  {
    assert Row(2) == Row(1) + {(1, 2)} && Row(3) == Row(2) + {(2, 3)} && Row(4) == Row(3) + {(3, 4)};
    assert (1, 2) in Row(4) && (2, 3) in Row(4) && (3, 4) in Row(4);
    assert Line(4).nodes == [1, 2, 3, 4];
  }

  lemma LineAnswerOnPath()
    ensures FrameOk(Line(4), 2, LINE_ANSWER) && OnPath(Line(4), LINE_ANSWER)
  {
    var g, p := Line(4), [1, 2, 3, 4];
    LineOfFour();
    assert LINE_ANSWER.message.data[3..] == [2, 3] && [1] + [2, 3] + [4] == p;
    assert ResponseOk(g, 2, LINE_ANSWER);
    PartOfPath(g, p, 0, 3);
    ReversePath(g, p[0..3]);
    assert Reverse(p[0..3]) == [3, 2, 1];
    OnwardFrom(g, [3, 2, 1], 0, 2);
    OnwardFrom(g, p, 1, 3);
  }

  /** With the asker's own address behind the message, node 2 turns its route to the asker away from it. */
  lemma LeftoverOctetMisleads(t: Slots)
    requires Sound(t)
    ensures Lookup(Peek(t, 2, LINE_ANSWER.message, 3, 1), 1) == Some(3) && !Correct(Line(4), 2, 1, 3)
  {
    var list := LINE_ANSWER.message.data[3..];
    assert list == [2, 3] && Scraped(list, 2, 1) == [1];
    var u := Add(t, 4, 3, Valid);
    AddIsUpdate(t, 4, 3, Valid);
    AddIsUpdate(u, 1, 3, Valid);
    assert AddAll(u, [1], 3) == Add(u, 1, 3, Valid);
    LineIsTree(4);
    LineOfFour();
    var p: seq<uint8> := [1, 2, 3, 4];
    assert Adj(Line(4), p[0], p[1]) && Adj(Line(4), p[1], p[2]);
    NeighbourIsNoWay(Line(4), 2, 3, 1);
  }

  /**
   * With zeros behind the message, as in a first discovery, node 2 adds a route to address 0, which is
   * wrong and harmless: its routes to nodes stay right.
   */
  lemma FirstAnswerOnTheLine()
    ensures var m := LINE_ANSWER.message;
            && ReadsPast(2, m) && PastIsHarmless(Line(4), 2, m, 3, 0)
            && Lookup(Peek(ZERO, 2, m, 3, 0), 0) == Some(3) && !Correct(Line(4), 2, 0, 3)
            && AllCorrect(Line(4), 2, Peek(ZERO, 2, m, 3, 0))
  {
    var g, m := Line(4), LINE_ANSWER.message;
    var list := m.data[3..];
    assert list == [2, 3] && 0 !in g.nodes;
    assert Scraped(list, 2, 0) == [0];
    LineIsTree(4);
    LineAnswerOnPath();
    NothingLive(ZERO);
    PeekKeepsCorrectIff(g, 2, ZERO, LINE_ANSWER, 0);
    var u := Add(ZERO, 4, 3, Valid);
    AddIsUpdate(ZERO, 4, 3, Valid);
    AddIsUpdate(u, 0, 3, Valid);
    assert Peek(ZERO, 2, m, 3, 0) == AddAll(u, [0], 3) == Add(u, 0, 3, Valid);
    if Correct(g, 2, 0, 3) {
      FirstHopIsNeighbour(g, 2, 0, 3);
    }
  }
}
