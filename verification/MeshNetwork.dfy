/**
 * The whole mesh as a transition system: nodes that share a radio graph, and the copies of frames in
 * the air. A copy may be lost or handled at any time, in any order.
 */
module MeshNetwork {
  import opened Octets
  import opened RouteTable
  import opened RouteTableTheory
  import opened MeshProtocol
  import opened MeshNodeTheory
  import opened Graphs

  // ---------------------------------------------------------------- states and steps

  /** An application message whose sendtoWait is inside doArp; room is doArp's messageLen. */
  datatype Waiting = Waiting(address: uint8, room: nat, payload: seq<uint8>, flags: uint8)
  datatype Site = Site(node: Node, waiting: Option<Waiting>)

  /** A frame on its way to one of the nodes that can hear it. */
  datatype Copy = Copy(at: uint8, frame: Frame)

  datatype Net = Net(sites: map<uint8, Site>, pending: seq<Copy>)

  predicate Hears(g: Graph, f: Frame, b: uint8) {
    Adj(g, f.from, b) && (f.to == b || f.to == BROADCAST)
  }

  function Copies(g: Graph, f: Frame, nodes: seq<uint8>): seq<Copy> {
    if nodes == [] then []
    else (if Hears(g, f, nodes[0]) then [Copy(nodes[0], f)] else []) + Copies(g, f, nodes[1..])
  }

  function FrameOf(from: uint8, s: LinkSend): Frame { Frame(s.to, from, s.message) }

  function Launch(g: Graph, from: uint8, sends: seq<LinkSend>): seq<Copy> {
    if sends == [] then []
    else Copies(g, FrameOf(from, sends[0]), g.nodes) + Launch(g, from, sends[1..])
  }

  datatype Step =
    | Send(x: uint8, payload: seq<uint8>, address: uint8, flags: uint8, acks: seq<bool>)
    | Receive(k: nat, past: uint8, acks: seq<bool>, answers: seq<bool>)
    | Lose(k: nat)
    | GiveUp(x: uint8)

  predicate Enabled(s: Net, step: Step) {
    match step
    case Send(x, _, _, _, _) => x in s.sites && s.sites[x].waiting == None
    case Receive(k, _, _, _) =>
      k < |s.pending| && s.pending[k].at in s.sites && WellFormed(s.pending[k].frame.message.data)
    case Lose(k) => k < |s.pending|
    case GiveUp(x) => x in s.sites && s.sites[x].waiting != None
  }

  function Without<T>(q: seq<T>, k: nat): seq<T>
    requires k < |q|
  {
    q[..k] + q[k + 1..]
  }

  /** What one site becomes and sends. */
  datatype Turn = Turn(site: Site, sends: seq<LinkSend>)

  /** sendtoWait up to the point where it would block in doArp. */
  function Begin(n: Node, payload: seq<uint8>, address: uint8, flags: uint8, acks: seq<bool>): Turn {
    if |payload| > MESH_MAX then Turn(Site(n, None), [])
    else if Known(n, address) then
      var out := SendOwn(n, [APPLICATION] + payload, address, flags, acks);
      Turn(Site(out.node, None), out.sends)
    else
      var out := Ask(n, address);
      Turn(Site(out.node, Some(Waiting(address, ROUTER_MAX, payload, flags))), out.sends)
  }

  /** recvfromAck, or one pass of the loop in doArp for a node that is waiting there. */
  function Take(site: Site, f: Frame, past: uint8, acks: seq<bool>, answers: seq<bool>): Turn
    requires WellFormed(f.message.data)
  {
    match site.waiting
    case None =>
      var h := MeshReceive(site.node, f, MESH_MAX, past, acks);
      Turn(Site(h.node, None), h.sends)
    case Some(w) =>
      var a := Hear(Asking(site.node, w.room, [], false), w.address, Heard(f, past, acks));
      if !a.found then Turn(Site(a.node, Some(w.(room := a.room))), a.sends) else
      var out := SendOwn(a.node, [APPLICATION] + w.payload, w.address, w.flags, answers);
      Turn(Site(out.node, None), a.sends + out.sends)
  }

  function Next(g: Graph, s: Net, step: Step): Net
    requires Enabled(s, step)
  {
    match step
    case Send(x, payload, address, flags, acks) =>
      var t := Begin(s.sites[x].node, payload, address, flags, acks);
      Net(s.sites[x := t.site], s.pending + Launch(g, x, t.sends))
    case Receive(k, past, acks, answers) =>
      var c := s.pending[k];
      var t := Take(s.sites[c.at], c.frame, past, acks, answers);
      Net(s.sites[c.at := t.site], Without(s.pending, k) + Launch(g, c.at, t.sends))
    case Lose(k) => s.(pending := Without(s.pending, k))
    case GiveUp(x) => s.(sites := s.sites[x := s.sites[x].(waiting := None)])
  }

  ghost predicate Legal(g: Graph, s: Net, steps: seq<Step>)
    decreases |steps|
  {
    steps == [] || (Enabled(s, steps[0]) && Legal(g, Next(g, s, steps[0]), steps[1..]))
  }

  ghost function End(g: Graph, s: Net, steps: seq<Step>): Net
    requires Legal(g, s, steps)
    decreases |steps|
  {
    if steps == [] then s else End(g, Next(g, s, steps[0]), steps[1..])
  }

  // ---------------------------------------------------------------- the discovery list

  /** The list in a request is a simple path: from the originator, hop by hop, to the frame's sender. */
  predicate RequestOk(g: Graph, H: nat, f: Frame)
    requires |f.message.data| >= 3
  {
    var m := f.message;
    var list := m.data[3..];
    && m.dest == BROADCAST && f.to == BROADCAST && m.data[1] == 1
    && |list| <= H
    && Simple(g, [m.source] + list)
    && m.data[2] !in list
    && f.from == Last([m.source] + list)
  }

  /** The list in a response is the inside of a simple path from the asker to the node it sought. */
  predicate ResponseOk(g: Graph, H: nat, f: Frame)
    requires |f.message.data| >= 3
  {
    var m := f.message;
    var list := m.data[3..];
    && m.dest != BROADCAST && m.source == m.data[2] && m.data[1] == 1
    && |list| <= H
    && Simple(g, [m.dest] + list + [m.data[2]])
  }

  predicate FrameOk(g: Graph, H: nat, f: Frame) {
    && WellFormed(f.message.data)
    && f.message.data[0] <= FAILURE
    && f.message.hops <= H
    && (f.message.data[0] == REQUEST ==> RequestOk(g, H, f))
    && (f.message.data[0] == RESPONSE ==> ResponseOk(g, H, f))
  }

  ghost predicate SitesOk(g: Graph, H: nat, sites: map<uint8, Site>) {
    && (forall x :: x in g.nodes <==> x in sites)
    && (forall x :: x in sites ==> sites[x].node.addr == x && sites[x].node.maxHops <= H
                                   && Sound(sites[x].node.routes))
  }

  ghost predicate Inv(g: Graph, H: nat, s: Net) {
    && BROADCAST !in g.nodes && NoDup(g.nodes)
    && SitesOk(g, H, s.sites)
    && (forall c :: c in s.pending ==> FrameOk(g, H, c.frame) && Hears(g, c.frame, c.at))
  }

  // ---------------------------------------------------------------- what is in the air

  lemma {:induction false} CopiesAreHeard(g: Graph, f: Frame, nodes: seq<uint8>, c: Copy)
    requires c in Copies(g, f, nodes)
    ensures c.frame == f && Hears(g, f, c.at) && c.at in nodes
  {
    if c !in (if Hears(g, f, nodes[0]) then [Copy(nodes[0], f)] else []) {
      CopiesAreHeard(g, f, nodes[1..], c);
    }
  }

  lemma {:induction false} LaunchedFrom(g: Graph, from: uint8, sends: seq<LinkSend>, c: Copy) returns (s: LinkSend)
    requires c in Launch(g, from, sends)
    ensures s in sends && c.frame == FrameOf(from, s) && Hears(g, c.frame, c.at)
    decreases |sends|
  {
    if c in Copies(g, FrameOf(from, sends[0]), g.nodes) {
      CopiesAreHeard(g, FrameOf(from, sends[0]), g.nodes, c);
      s := sends[0];
    } else {
      s := LaunchedFrom(g, from, sends[1..], c);
    }
  }

  ghost predicate SendsOk(g: Graph, H: nat, from: uint8, sends: seq<LinkSend>) {
    forall s :: s in sends ==> FrameOk(g, H, FrameOf(from, s))
  }

  /** What a node passes on is the message itself or a failure report about it. */
  lemma RoutedOrReport(n: Node, m: Routed, from: uint8, acks: seq<bool>, s: LinkSend)
    requires s in MeshRoute(n, m, from, acks).sends
    ensures s.message == m || (s.message.data == [FAILURE, m.dest] && s.message.hops == 0)
  {
  }

  lemma OwnSendsItsData(n: Node, data: seq<uint8>, dest: uint8, flags: uint8, acks: seq<bool>, s: LinkSend)
    requires s in SendOwn(n, data, dest, flags, acks).sends
    ensures s.message == Routed(dest, n.addr, 0, n.e2e, flags, data) && |data| <= DRIVER_MAX - HEADER
    ensures dest == BROADCAST ==> s.to == BROADCAST
  {
  }

  lemma PassedOnOk(g: Graph, H: nat, n: Node, f: Frame, past: uint8, acks: seq<bool>)
    requires FrameOk(g, H, f) && n.maxHops <= H
    ensures SendsOk(g, H, n.addr, RouterReceive(n, f, past, acks).sends)
  {
    var r := RouterReceive(n, f, past, acks);
    var m := f.message;
    if r.sends != [] {
      var peeked := n.(routes := Peek(n.routes, n.addr, m, f.from, past));
      forall s | s in r.sends
        ensures FrameOk(g, H, FrameOf(n.addr, s))
      {
        RoutedOrReport(peeked, m.(hops := Wrap8(m.hops + 1)), f.from, acks, s);
      }
    }
  }

  /** The heart of it: relaying a request extends its path, answering it completes the path. */
  lemma RequestHandledOk(g: Graph, H: nat, n: Node, f: Frame, acks: seq<bool>)
    requires FrameOk(g, H, f) && IsRequest(f.message) && Adj(g, f.from, n.addr) && n.maxHops <= H
    requires BROADCAST !in g.nodes
    ensures SendsOk(g, H, n.addr, HandleRequest(n, f.message, f.from, acks).sends)
  {
    var m := f.message;
    var list := m.data[3..];
    var out := HandleRequest(n, m, f.from, acks);
    if out.sends != [] {
      assert n.addr !in [m.source] + list;
      ExtendPath(g, [m.source] + list, n.addr);
      var knows := n.(routes := AddAll(n.routes, [m.source] + list, f.from));
      forall s | s in out.sends
        ensures FrameOk(g, H, FrameOf(n.addr, s))
      {
        assert ([m.source] + list)[0] == m.source && m.source in g.nodes;
        if m.data[2] == n.addr {
          var reply := m.data[0 := RESPONSE];
          OwnSendsItsData(knows, reply, m.source, 0, acks, s);
          assert reply[3..] == list;
          assert ResponseOk(g, H, FrameOf(n.addr, s));
        } else {
          var longer := m.data + [n.addr];
          assert longer[3..] == list + [n.addr];
          assert [m.source] + (list + [n.addr]) == ([m.source] + list) + [n.addr];
          assert s.message.data == longer && s.to == BROADCAST;
          assert RequestOk(g, H, FrameOf(n.addr, s));
        }
      }
    }
  }

  lemma ReceivedOk(g: Graph, H: nat, n: Node, f: Frame, space: nat, past: uint8, acks: seq<bool>)
    requires FrameOk(g, H, f) && Adj(g, f.from, n.addr) && n.maxHops <= H && BROADCAST !in g.nodes
    ensures SendsOk(g, H, n.addr, MeshReceive(n, f, space, past, acks).sends)
  {
    PassedOnOk(g, H, n, f, past, acks);
    var r := RouterReceive(n, f, past, acks);
    if r.delivered.Some? && IsRequest(f.message) {
      RequestHandledOk(g, H, r.node, f, acks);
    }
  }

  lemma ApplicationOk(g: Graph, H: nat, n: Node, payload: seq<uint8>, address: uint8, flags: uint8, acks: seq<bool>)
    ensures SendsOk(g, H, n.addr, SendOwn(n, [APPLICATION] + payload, address, flags, acks).sends)
  {
  }

  lemma AskOk(g: Graph, H: nat, n: Node, address: uint8)
    requires n.addr in g.nodes
    ensures SendsOk(g, H, n.addr, Ask(n, address).sends)
  {
  }

  // ---------------------------------------------------------------- every step keeps the invariant

  ghost predicate TurnOk(g: Graph, H: nat, x: uint8, t: Turn) {
    && t.site.node.addr == x && t.site.node.maxHops <= H && Sound(t.site.node.routes)
    && SendsOk(g, H, x, t.sends)
  }

  lemma BeginOk(g: Graph, H: nat, n: Node, payload: seq<uint8>, address: uint8, flags: uint8, acks: seq<bool>)
    requires n.addr in g.nodes && n.maxHops <= H && Sound(n.routes)
    ensures TurnOk(g, H, n.addr, Begin(n, payload, address, flags, acks))
  {
    SendFromKeeps(n, [APPLICATION] + payload, address, n.addr, flags, n.addr, acks);
    SendFromKeeps(n, [REQUEST, 1, address], BROADCAST, n.addr, 0, n.addr, []);
    ApplicationOk(g, H, n, payload, address, flags, acks);
    AskOk(g, H, n, address);
  }

  lemma TakeOk(g: Graph, H: nat, site: Site, f: Frame, past: uint8, acks: seq<bool>, answers: seq<bool>)
    requires FrameOk(g, H, f) && Adj(g, f.from, site.node.addr) && BROADCAST !in g.nodes
    requires site.node.maxHops <= H && Sound(site.node.routes)
    ensures TurnOk(g, H, site.node.addr, Take(site, f, past, acks, answers))
  {
    match site.waiting
    case None =>
      MeshReceiveKeeps(site.node, f, MESH_MAX, past, acks);
      ReceivedOk(g, H, site.node, f, MESH_MAX, past, acks);
    case Some(w) =>
      var start := Asking(site.node, w.room, [], false);
      var a := Hear(start, w.address, Heard(f, past, acks));
      HearKeeps(start, w.address, Heard(f, past, acks));
      PassedOnOk(g, H, site.node, f, past, acks);
      assert a.sends == RouterReceive(site.node, f, past, acks).sends;
      if a.found {
        SendFromKeeps(a.node, [APPLICATION] + w.payload, w.address, a.node.addr, w.flags, a.node.addr, answers);
        ApplicationOk(g, H, a.node, w.payload, w.address, w.flags, answers);
      }
  }

  lemma LaunchOk(g: Graph, H: nat, x: uint8, sends: seq<LinkSend>)
    requires SendsOk(g, H, x, sends)
    ensures forall c :: c in Launch(g, x, sends) ==> FrameOk(g, H, c.frame) && Hears(g, c.frame, c.at)
  {
    forall c | c in Launch(g, x, sends)
      ensures FrameOk(g, H, c.frame) && Hears(g, c.frame, c.at)
    {
      var s := LaunchedFrom(g, x, sends, c);
    }
  }

  lemma StepKeepsInv(g: Graph, H: nat, s: Net, step: Step)
    requires Inv(g, H, s) && Enabled(s, step)
    ensures Inv(g, H, Next(g, s, step))
  {
    match step
    case Send(x, payload, address, flags, acks) =>
      BeginOk(g, H, s.sites[x].node, payload, address, flags, acks);
      LaunchOk(g, H, x, Begin(s.sites[x].node, payload, address, flags, acks).sends);
    case Receive(k, past, acks, answers) =>
      var c := s.pending[k];
      TakeOk(g, H, s.sites[c.at], c.frame, past, acks, answers);
      LaunchOk(g, H, c.at, Take(s.sites[c.at], c.frame, past, acks, answers).sends);
    case Lose(k) =>
    case GiveUp(x) =>
  }

  /**
   * In every reachable state every request and response carries a genuine simple path, no message is
   * too short for its type, and every table reads as a map.
   */
  lemma {:induction false} EveryRunKeepsInv(g: Graph, H: nat, s: Net, steps: seq<Step>)
    requires Inv(g, H, s) && Legal(g, s, steps)
    ensures Inv(g, H, End(g, s, steps))
    decreases |steps|
  {
    if steps == [] {
    } else {
      StepKeepsInv(g, H, s, steps[0]);
      EveryRunKeepsInv(g, H, Next(g, s, steps[0]), steps[1..]);
    }
  }

  /** So every copy in the air can be handled by the node it reaches: no step is ruled out. */
  lemma EveryCopyCanBeHandled(g: Graph, H: nat, s: Net, k: nat, past: uint8, acks: seq<bool>, answers: seq<bool>)
    requires Inv(g, H, s) && k < |s.pending|
    ensures Enabled(s, Receive(k, past, acks, answers))
  {
  }

  /** Nothing in the air at the start, and tables that read as maps. */
  ghost predicate Initial(g: Graph, H: nat, s: Net) {
    && BROADCAST !in g.nodes && NoDup(g.nodes) && SitesOk(g, H, s.sites)
    && s.pending == []
  }

  /** A response that has come back to the asker lists a simple path from it to the node it sought. */
  lemma ResponsesListGenuinePaths(g: Graph, H: nat, s: Net, steps: seq<Step>, c: Copy)
    requires Initial(g, H, s) && Legal(g, s, steps) && c in End(g, s, steps).pending
    requires c.frame.message.data != [] && c.frame.message.data[0] == RESPONSE && c.at == c.frame.message.dest
    ensures |c.frame.message.data| >= 3
    ensures var path := [c.at] + c.frame.message.data[3..] + [c.frame.message.data[2]];
            Simple(g, path) && |path| <= H + 2 && c.frame.message.source == Last(path)
  {
    EveryRunKeepsInv(g, H, s, steps);
  }

  predicate LengthsFit(data: seq<uint8>) {
    && data != []
    && Wrap8(HEADER + |data|) == HEADER + |data| <= DRIVER_MAX
    && Wrap8(Wrap8(HEADER + |data|) - HEADER) == |data|
    && (data[0] == APPLICATION ==> Wrap8(|data| - 1) == |data[1..]|)
    && (data[0] in {REQUEST, RESPONSE} ==> |data| >= 3 && Wrap8(|data| - 1 - 2) == |data[3..]|)
    && |data| + 1 <= ROUTER_MAX
  }

  lemma WellFormedFits(data: seq<uint8>)
    requires WellFormed(data)
    ensures LengthsFit(data)
  {
  }

  /**
   * The octet arithmetic of the code never wraps and stays inside its buffers: the payload and list
   * lengths it subtracts are the real ones, and one more list member still fits.
   */
  lemma LengthsNeverWrap(g: Graph, H: nat, s: Net, steps: seq<Step>, c: Copy)
    requires Initial(g, H, s) && Legal(g, s, steps) && c in End(g, s, steps).pending
    ensures LengthsFit(c.frame.message.data)
  {
    EveryRunKeepsInv(g, H, s, steps);
    WellFormedFits(c.frame.message.data);
  }
}
